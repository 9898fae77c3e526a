/** What every step of the reducer keeps, and what it may change. */
module SafeApply {
  import opened Strings
  import opened Vocabulary
  import opened Vlan
  import opened ChangeControl
  import NC = NativeCapability

  /** What a step did to the protected resource, read off the states before and after it. */
  datatype StepEvent =
    | Quiet
    | Drafted(draft: Option<Candidate>)
    | Validated(checked: Candidate)
    | Rebased(observation: Option<(string, VlanValue)>)
    | Started(job: nat, provisional: Candidate)
    | Committed(job: nat, committed: Candidate)
    | RolledBackSafely(job: nat, restored: Candidate)
    | FoundNotApplied(job: nat, released: Candidate)

  /** The value a rebase records for the Port: the conflicting one, or the base that was confirmed current. */
  function RebaseObservation(s: State): Option<(string, VlanValue)> {
    if s.candidate.Some? && s.candidate.value.VlanCandidate? then
      var c := s.candidate.value;
      Some((c.port.name, if s.scenario.Conflict? then ConflictCurrent(c.base) else c.base))
    else None
  }

  function EventOf(s: State, a: Action, next: State): StepEvent {
    var job := if s.transaction.job.Some? then s.transaction.job.value else 0;
    if next.sequence != s.sequence && next.transaction.snapshot.Some? then
      Started(next.sequence, next.transaction.snapshot.value)
    else if Locked(s.transaction.status) && !Locked(next.transaction.status) && next.transaction.snapshot.Some? then
      var c := next.transaction.snapshot.value;
      if next.transaction.status in {Confirmed, Applied} then Committed(job, c)
      else if next.transaction.status == RolledBack then RolledBackSafely(job, c)
      else FoundNotApplied(job, c)
    else if next.generation != s.generation then Rebased(RebaseObservation(s))
    else if next.candidate != s.candidate || (a.Discard? && next.error.None?) then Drafted(next.candidate)
    else if a.Validate? && next.error.None? && next.candidate.Some? then Validated(next.candidate.value)
    else Quiet
  }

  // ---- the invariant ----

  predicate Sound(c: Candidate) {
    if c.VlanCandidate? then Valid(c.mine) else !c.kind.VlanIntent?
  }

  predicate Invariant(s: State) {
    && Anchored(s)
    && (s.candidate.Some? ==> s.candidate.value.baseGeneration == s.generation && Sound(s.candidate.value))
    && (Locked(s.transaction.status) ==>
          s.transaction.snapshot.Some? && s.candidate == s.transaction.snapshot
            && s.transaction.job == Some(s.sequence))
    && (s.transaction.status.Countdown? ==> s.transaction.deadline.Some?)
    && (s.transaction.job.Some? ==> s.transaction.job.value <= s.sequence)
    && (s.transaction.job.Some? <==> s.transaction.snapshot.Some?)
    && (s.transaction.status.Idle? <==> s.transaction == NO_TRANSACTION)
    && (s.validatedRevision.Some? ==>
          && s.scenario.Normal?
          && s.candidate.Some? && s.validatedRevision.value == s.candidate.value.revision)
  }

  predicate SameCore(s: State, next: State) {
    next.generation == s.generation && next.live == s.live && next.sequence == s.sequence
  }

  /** What may be changed at all: OVS-owned Ports in management scope, editable Bridges and Bonds, the native target. */
  predicate Manageable(c: Candidate) {
    if c.VlanCandidate? then !c.port.scope.Observe? && c.port.authority.Ovs? && Valid(c.mine)
    else if c.Isolation() then c.intent.objectName == NC.TARGET_PORT
    else WellFormedTopology(c.intent) && !ObserveOnlyTopology(c.intent)
  }

  /** Action `a` was admitted from `s` and staged exactly `c`; an existing candidate is only refined. */
  predicate StagedBy(s: State, a: Action, c: Candidate) {
    && Manageable(c) && c.revision == NextRevision(s)
    && (s.candidate.Some? ==> s.candidate.value.Kind() == c.Kind() && s.candidate.value.Name() == c.Name())
    && s.scenario !in {Scenario.PermissionDenied, Scenario.ProviderUnavailable, Scenario.Error, Scenario.NetworkLoss}
    && match a
       case StageVlan(port, mine, desktop, _) =>
         desktop && c.VlanCandidate? && c.port == port && c.mine == mine && c.base == StagingBase(s, port)
           && !SameVlan(c.base, mine)
       case StageTopology(intent, desktop, _) =>
         desktop && !s.scenario.ProviderDegraded? && c.TopologyCandidate? && c.kind == intent.kind && c.intent == intent
       case StageIsolation(desktop, accepted, now) =>
         && desktop && accepted && s.candidate.None? && c.TopologyCandidate? && c.kind.IsolationIntent?
         && NC.PolicyBlock(s.nativeCapability, Normal, s.generation, now).None?
         && s.nativeCapability.value.enabled == Some(false)
       case _ => false
  }

  predicate SameContent(a: Candidate, b: Candidate) {
    if a.VlanCandidate? then b.VlanCandidate? && a.port == b.port && a.mine == b.mine
    else b.TopologyCandidate? && a.kind == b.kind && a.intent == b.intent
  }

  /** The ways an open transaction can change its status without being resolved. */
  predicate StatusMove(before: ApplyState, after: ApplyState) {
    || before == after
    || (before.Countdown? && (after.OutcomeUnknown? || after.RollbackConflict?))
    || (Uncertain(before) && (after.Degraded? || after.NeedsAttention?))
  }

  predicate QuietStep(s: State, a: Action, next: State) {
    && SameCore(s, next) && next.candidate == s.candidate
    && StatusMove(s.transaction.status, next.transaction.status)
    && (next.transaction.status == s.transaction.status && s.transaction.status.Countdown? ==>
          next.transaction == s.transaction)
    && next.transaction.snapshot == s.transaction.snapshot && next.transaction.job == s.transaction.job
    && (a.ObserveNativeCapability? || next.nativeCapability == s.nativeCapability)
    && next.validatedRevision in {None, s.validatedRevision}
    && (next.validatedRevision.Some? && next.candidate.Some? && next.candidate.value.Isolation() ==>
          next.nativeCapability == s.nativeCapability)
  }

  predicate DraftStep(s: State, a: Action, next: State) {
    && SameCore(s, next) && !Locked(s.transaction.status) && !Locked(next.transaction.status)
    && next.validatedRevision.None?
    && (next.candidate.None? ==> a.Discard? && next.transaction == s.transaction)
    && (next.candidate.Some? ==> StagedBy(s, a, next.candidate.value) && next.transaction == NO_TRANSACTION)
  }

  predicate ValidateStep(s: State, next: State, c: Candidate) {
    && SameCore(s, next) && next.candidate == s.candidate == Some(c) && next.transaction == s.transaction
    && !Locked(s.transaction.status) && s.scenario.Normal? && next.scenario.Normal?
    && next.nativeCapability == s.nativeCapability
    && next.validatedRevision == Some(c.revision)
  }

  /**
   * The choices a stale or conflicting workspace offers; only a VLAN overlap can be resolved in favour of the change.
   */
  predicate RebaseOffered(s: State, choice: RebaseChoice) {
    && s.candidate.Some? && !Locked(s.transaction.status)
    && (if s.scenario.Stale? then choice.NonOverlapping?
        else s.scenario.Conflict? && (choice.KeepCurrent? || (choice.KeepMine? && s.candidate.value.VlanCandidate?)))
  }

  predicate RebaseStep(s: State, a: Action, next: State, observation: Option<(string, VlanValue)>) {
    && a.Rebase? && RebaseOffered(s, a.choice) && next.transaction == s.transaction && next.sequence == s.sequence
    && next.scenario.Normal?
    && next.generation == s.generation + 1 && next.validatedRevision.None?
    && next.live == (if observation.Some? then s.live[observation.value.0 := observation.value.1] else s.live)
    && (next.candidate.Some? ==>
          && SameContent(s.candidate.value, next.candidate.value)
          && next.candidate.value.revision == s.candidate.value.revision + 1
          && (next.candidate.value.VlanCandidate? ==>
                observation == Some((next.candidate.value.port.name, next.candidate.value.base))))
    && (next.candidate.None? <==> a.choice.KeepCurrent?)
  }

  predicate StartStep(s: State, a: Action, next: State, job: nat, c: Candidate) {
    && a.Start? && a.desktop && Trim(s.note) != "" && !Locked(s.transaction.status)
    && s.candidate == next.candidate == Some(c) && s.validatedRevision == Some(c.revision) && s.scenario.Normal?
    && next.scenario.Normal? && next.generation == s.generation && next.live == s.live
    && job == next.sequence == s.sequence + 1
    && next.transaction == Transaction(Countdown, Some(a.now + CONFIRM_WINDOW_MS), Some(c), Some(job))
    && (c.VlanCandidate? ==> Valid(c.mine))
    && (c.Isolation() ==> NC.PolicyBlock(s.nativeCapability, s.scenario, s.generation, a.now).None?)
  }

  predicate CommitStep(s: State, a: Action, next: State, job: nat, c: Candidate) {
    && Locked(s.transaction.status) && !Locked(next.transaction.status)
    && s.transaction.snapshot == s.candidate == Some(c) && s.transaction.job == Some(job)
    && next.candidate.None? && next.validatedRevision.None? && next.sequence == s.sequence
    && next.generation == s.generation + 1
    && next.live == (if c.VlanCandidate? then s.live[c.port.name := c.mine] else s.live)
    && next.transaction == s.transaction.(status := next.transaction.status, deadline := None)
    && (|| (s.transaction.status.Countdown? && a.Confirm? && next.transaction.status.Confirmed? && s.scenario.Normal?
            && s.transaction.deadline.Some? && a.now < s.transaction.deadline.value)
        || (Uncertain(s.transaction.status) && a.Reconcile? && a.result == Some(ResultApplied)
            && next.transaction.status.Applied?))
  }

  predicate RestoreStep(s: State, a: Action, next: State, job: nat, c: Candidate) {
    && (a.Rollback? || a.Tick? || a.Confirm? || a.Reconnect?)
    && s.transaction.status.Countdown? && next.transaction.status.RolledBack?
    && s.scenario !in {Scenario.RollbackConflict, Scenario.Conflict, Scenario.Stale, Scenario.Drift}
    && (s.scenario.NetworkLoss? ==> a.Reconnect?)
    && s.transaction.snapshot == s.candidate == Some(c) && s.transaction.job == Some(job)
    && next.validatedRevision.None?
    && next.generation == s.generation + 1 && next.live == s.live && next.sequence == s.sequence
    && next.transaction == s.transaction.(status := RolledBack, deadline := None)
    && next.candidate == Some(c.(baseGeneration := next.generation))
  }

  predicate NotAppliedStep(s: State, a: Action, next: State, job: nat, c: Candidate) {
    && Uncertain(s.transaction.status) && next.transaction.status.NotApplied? && s.transaction.job == Some(job)
    && a.Reconcile? && a.result == Some(ResultNotApplied)
    && SameCore(s, next) && next.candidate == s.candidate == s.transaction.snapshot == Some(c)
    && next.validatedRevision.None?
    && next.transaction == s.transaction.(status := NotApplied, deadline := None)
  }

  /** What each event allows a step to change in the candidate, the transaction and the configuration. */
  predicate ProtocolStep(s: State, a: Action, next: State, e: StepEvent) {
    match e
    case Quiet => QuietStep(s, a, next)
    case Drafted(c) => next.candidate == c && DraftStep(s, a, next)
    case Validated(c) => ValidateStep(s, next, c)
    case Rebased(o) => RebaseStep(s, a, next, o)
    case Started(job, c) => StartStep(s, a, next, job, c)
    case Committed(job, c) => CommitStep(s, a, next, job, c)
    case RolledBackSafely(job, c) => RestoreStep(s, a, next, job, c)
    case FoundNotApplied(job, c) => NotAppliedStep(s, a, next, job, c)
  }

  /** Whether the native feature counts as enabled after an event: provisional and committed isolation enable it. */
  function EnabledAfter(e: StepEvent, enabled: Option<bool>): Option<bool> {
    match e
    case Started(_, c) => if c.Isolation() then Some(true) else enabled
    case Committed(_, c) => if c.Isolation() then Some(true) else enabled
    case RolledBackSafely(_, c) => if c.Isolation() then Some(false) else enabled
    case FoundNotApplied(_, c) => if c.Isolation() then Some(false) else enabled
    case _ => enabled
  }

  /** A decision on an isolation change rewrites the proof it was taken on; other changes leave the proof alone. */
  predicate Restamped(s: State, next: State, c: Candidate, enabled: bool, now: int, source: NC.ProofSource) {
    if c.Isolation() then
      && s.nativeCapability.Some?
      && next.nativeCapability == Some(s.nativeCapability.value.(enabled := Some(enabled), observedAt := now,
                                                                 generation := next.generation, source := source))
    else next.nativeCapability == s.nativeCapability
  }

  /** A result read back for an isolation change leaves no proof. */
  predicate ProofDropped(s: State, next: State, c: Candidate) {
    next.nativeCapability == (if c.Isolation() then None else s.nativeCapability)
  }

  /** What each event does to the native feature and to its proof. */
  predicate NativeStep(s: State, a: Action, next: State, e: StepEvent) {
    && next.nativeEnabled == EnabledAfter(e, s.nativeEnabled)
    && match e
       case Started(job, c) => a.Start? && Restamped(s, next, c, true, a.now, NC.ProvisionalApply(Some(job)))
       case Committed(job, c) =>
         if a.Confirm? then Restamped(s, next, c, true, a.now, NC.ConfirmedBy(Some(job))) else ProofDropped(s, next, c)
       case RolledBackSafely(job, c) =>
         && (a.Rollback? || a.Tick? || a.Confirm? || a.Reconnect?)
         && Restamped(s, next, c, false, a.now, NC.CompareBeforeRollback(Some(job)))
       case FoundNotApplied(_, c) => ProofDropped(s, next, c)
       case _ => next.nativeCapability == if a.ObserveNativeCapability? then a.proof else s.nativeCapability
  }

  /** The full account of a step: each event allows exactly these changes. */
  predicate StepAllowed(s: State, a: Action, next: State, e: StepEvent) {
    ProtocolStep(s, a, next, e) && NativeStep(s, a, next, e)
  }

  predicate Good(s: State, a: Action, next: State) {
    Invariant(next) && StepAllowed(s, a, next, EventOf(s, a, next))
  }

  lemma RejectionIsGood(s: State, a: Action, reason: Notice)
    requires Invariant(s) && !a.ObserveNativeCapability?
    ensures Good(s, a, Reject(s, reason))
  {
  }

  lemma StoppedRollbackIsGood(s: State, a: Action)
    requires Invariant(s) && s.transaction.status.Countdown? && (a.Tick? || a.Confirm? || a.Rollback? || a.Reconnect?)
    ensures Good(s, a, StopRollback(s, a.now))
  {
    assert EventOf(s, a, StopRollback(s, a.now)) == Quiet;
  }

  lemma RestoreIsGood(s: State, a: Action)
    requires Invariant(s) && s.transaction.status.Countdown? && (a.Tick? || a.Confirm? || a.Rollback? || a.Reconnect?)
    requires s.scenario !in {Scenario.RollbackConflict, Scenario.Conflict, Scenario.Stale, Scenario.Drift}
    requires s.scenario.NetworkLoss? ==> a.Reconnect?
    requires s.candidate.value.Isolation() ==> s.nativeCapability.Some?
    ensures Good(s, a, Restore(s, a.now))
  {
    assert EventOf(s, a, Restore(s, a.now)) == RolledBackSafely(s.sequence, s.candidate.value);
  }

  lemma RollBackIsGood(s: State, a: Action)
    requires Invariant(s) && s.transaction.status.Countdown? && (a.Tick? || a.Confirm? || a.Rollback? || a.Reconnect?)
    requires s.scenario.NetworkLoss? ==> a.Reconnect?
    ensures Good(s, a, RollBack(s, a.now))
  {
    if RollbackUnsafe(s, a.now) {
      StoppedRollbackIsGood(s, a);
    } else {
      RestoreIsGood(s, a);
    }
  }

  lemma CommitIsGood(s: State, a: Action)
    requires Invariant(s) && s.transaction.status.Countdown? && s.scenario.Normal? && a.Confirm?
    requires a.now < s.transaction.deadline.value
    requires s.candidate.value.Isolation() ==>
      NC.ConfirmBlock(s.nativeCapability, s.scenario, s.generation, a.now).None?
    ensures Good(s, a, Commit(s, s.transaction.snapshot.value, a.now))
  {
  }

  lemma ExpiryIsGood(s: State, a: Action)
    requires Invariant(s) && (a.Tick? || a.Confirm?)
    ensures Good(s, a, StepTick(s, a.now))
  {
    if s.transaction.status.Countdown? && RemainingSeconds(s.transaction, a.now) == 0 && !s.scenario.NetworkLoss? {
      RollBackIsGood(s, a);
    }
  }

  lemma StageIsolationIsGood(s: State, a: Action)
    requires Invariant(s) && a.StageIsolation?
    ensures Good(s, a, StepStageIsolation(s, a.desktop, a.impactAccepted, a.now))
  {
    var next := StepStageIsolation(s, a.desktop, a.impactAccepted, a.now);
    if next.error.Some? {
      RejectionIsGood(s, a, next.error.value);
    }
  }

  lemma StageTopologyIsGood(s: State, a: Action)
    requires Invariant(s) && a.StageTopology?
    ensures Good(s, a, StepStageTopology(s, a.intent, a.desktop, a.now))
  {
    var blocked := StageTopologyBlock(s, a.intent, a.desktop);
    if blocked.Some? {
      RejectionIsGood(s, a, blocked.value);
    }
  }

  lemma StageVlanIsGood(s: State, a: Action)
    requires Invariant(s) && a.StageVlan?
    ensures Good(s, a, StepStageVlan(s, a.port, a.mine, a.desktop, a.now))
  {
    var blocked := StageVlanBlock(s, a.port, a.mine, a.desktop);
    if blocked.Some? {
      RejectionIsGood(s, a, blocked.value);
    }
  }

  lemma DiscardIsGood(s: State, a: Action)
    requires Invariant(s) && a.Discard?
    ensures Good(s, a, StepDiscard(s, a.now))
  {
  }

  lemma SelectScenarioIsGood(s: State, a: Action)
    requires Invariant(s) && a.SelectScenario?
    ensures Good(s, a, StepScenario(s, a.requested))
  {
  }

  lemma ValidateIsGood(s: State, a: Action)
    requires Invariant(s) && a.Validate?
    ensures Good(s, a, StepValidate(s, a.now))
  {
  }

  lemma InspectDriftIsGood(s: State, a: Action)
    requires Invariant(s) && a.InspectDrift?
    ensures Good(s, a, StepInspectDrift(s, a.now))
  {
  }

  lemma RebaseIsGood(s: State, a: Action)
    requires Invariant(s) && a.Rebase?
    ensures Good(s, a, StepRebase(s, a.choice, a.now))
  {
    var next := StepRebase(s, a.choice, a.now);
    if next.error.Some? {
      RejectionIsGood(s, a, next.error.value);
    } else {
      assert EventOf(s, a, next) == Rebased(RebaseObservation(s));
    }
  }

  lemma ApplyAdmits(s: State, now: int)
    requires Invariant(s) && ApplyBlock(s, now).None?
    ensures !Locked(s.transaction.status) && s.scenario.Normal? && Trim(s.note) != ""
    ensures s.candidate.Some? && s.validatedRevision == Some(s.candidate.value.revision)
    ensures s.candidate.value.Isolation() ==> NC.PolicyBlock(s.nativeCapability, s.scenario, s.generation, now).None?
  {
  }

  lemma SubmissionIsGood(s: State, a: Action)
    requires Invariant(s) && a.Start? && a.desktop
    requires !Locked(s.transaction.status) && s.scenario.Normal? && Trim(s.note) != ""
    requires s.candidate.Some? && s.validatedRevision == Some(s.candidate.value.revision)
    requires s.candidate.value.Isolation() ==> NC.PolicyBlock(s.nativeCapability, s.scenario, s.generation, a.now).None?
    ensures Good(s, a, Submit(s, a.now))
  {
    assert EventOf(s, a, Submit(s, a.now)) == Started(s.sequence + 1, s.candidate.value);
  }

  lemma StartIsGood(s: State, a: Action)
    requires Invariant(s) && a.Start?
    ensures Good(s, a, StepStart(s, a.desktop, a.now))
  {
    var blocked := ApplyBlock(s, a.now);
    if !a.desktop {
      RejectionIsGood(s, a, StartFromDesktop);
    } else if blocked.Some? {
      RejectionIsGood(s, a, blocked.value);
    } else {
      ApplyAdmits(s, a.now);
      SubmissionIsGood(s, a);
    }
  }

  lemma ConfirmIsGood(s: State, a: Action)
    requires Invariant(s) && a.Confirm?
    ensures Good(s, a, StepConfirm(s, a.now))
  {
    if !s.transaction.status.Countdown? {
      RejectionIsGood(s, a, NothingToConfirm);
    } else if RemainingSeconds(s.transaction, a.now) == 0 {
      ExpiryIsGood(s, a);
    } else {
      var next := StepConfirm(s, a.now);
      if next.error.Some? {
        RejectionIsGood(s, a, next.error.value);
      } else {
        CommitIsGood(s, a);
      }
    }
  }

  lemma RollbackIsGood(s: State, a: Action)
    requires Invariant(s) && a.Rollback?
    ensures Good(s, a, StepRollback(s, a.now))
  {
    var next := StepRollback(s, a.now);
    if next.error.Some? {
      RejectionIsGood(s, a, next.error.value);
    } else {
      RollBackIsGood(s, a);
    }
  }

  lemma TickIsGood(s: State, a: Action)
    requires Invariant(s) && a.Tick?
    ensures Good(s, a, StepTick(s, a.now))
  {
    ExpiryIsGood(s, a);
  }

  lemma ReconnectIsGood(s: State, a: Action)
    requires Invariant(s) && a.Reconnect?
    ensures Good(s, a, StepReconnect(s, a.now))
  {
    if !s.scenario.NetworkLoss? {
      RejectionIsGood(s, a, AlreadyConnected);
    } else {
      var connected := Log(s.(scenario := Normal), a.now, Event, ConnectionRestored);
      if connected.transaction.status.Countdown? && RemainingSeconds(connected.transaction, a.now) == 0 {
        RollBackIsGood(connected, a);
      }
    }
  }

  lemma ReadBackIsGood(s: State, a: Action)
    requires Invariant(s) && a.Reconcile? && a.result.Some? && Uncertain(s.transaction.status)
    ensures Good(s, a, ReadBack(s, s.transaction.snapshot.value, a.result.value, a.now))
  {
    var c := s.transaction.snapshot.value;
    var next := ReadBack(s, c, a.result.value, a.now);
    assert EventOf(s, a, next) ==
      match a.result.value
      case ResultApplied => Committed(s.sequence, c)
      case ResultNotApplied => FoundNotApplied(s.sequence, c)
      case _ => Quiet;
  }

  lemma ReconcileIsGood(s: State, a: Action)
    requires Invariant(s) && a.Reconcile?
    ensures Good(s, a, StepReconcile(s, a.result, a.now))
  {
    var next := StepReconcile(s, a.result, a.now);
    if s.scenario.NetworkLoss? || !Uncertain(s.transaction.status) || a.result.None? {
      RejectionIsGood(s, a, next.error.value);
    } else {
      ReadBackIsGood(s, a);
    }
  }

  /** Every step from an invariant state keeps the invariant and changes only what its event allows. */
  lemma StepIsGood(s: State, a: Action)
    requires Invariant(s)
    ensures Good(s, a, Transition(s, a))
  {
    match a
    case StageIsolation(_, _, _) => StageIsolationIsGood(s, a);
    case StageTopology(_, _, _) => StageTopologyIsGood(s, a);
    case StageVlan(_, _, _, _) => StageVlanIsGood(s, a);
    case Discard(_) => DiscardIsGood(s, a);
    case SelectScenario(_, _) => SelectScenarioIsGood(s, a);
    case Validate(_) => ValidateIsGood(s, a);
    case InspectDrift(_) => InspectDriftIsGood(s, a);
    case Rebase(_, _) => RebaseIsGood(s, a);
    case Start(_, _) => StartIsGood(s, a);
    case Confirm(_) => ConfirmIsGood(s, a);
    case Rollback(_) => RollbackIsGood(s, a);
    case Tick(_) => TickIsGood(s, a);
    case Reconnect(_) => ReconnectIsGood(s, a);
    case Reconcile(_, _) => ReconcileIsGood(s, a);
    case _ =>
  }
}
