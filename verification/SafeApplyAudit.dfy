/** The audit trail of Safe Apply: what is recorded, under which name, and the one move that is not. */
module SafeApplyAudit {
  import opened Strings
  import opened Vocabulary
  import opened ChangeControl
  import opened SafeApply
  import opened SafeApplyRuns
  import opened SafeApplyTime

  // ---- every change but one is recorded ----

  /** Evidence is only appended, and at least once when the protected state changes. */
  predicate Audited(s: State, next: State) {
    s.evidence <= next.evidence && (SameProtectedState(s, next) || |s.evidence| < |next.evidence|)
  }

  /** Selecting the scenario that makes the outcome of a running countdown unknown. */
  predicate Silent(s: State, a: Action) {
    s.transaction.status.Countdown? && a.SelectScenario? && a.requested == Some(Scenario.OutcomeUnknown)
  }

  function Uncertained(s: State): State {
    s.(transaction := s.transaction.(status := ApplyState.OutcomeUnknown))
  }

  /** The unrecorded move: the countdown becomes uncertain and nothing else of the protected state changes. */
  predicate SilentMove(s: State, next: State) {
    next.evidence == s.evidence && SameProtectedState(Uncertained(s), next)
  }

  predicate StepAudited(s: State, a: Action, next: State) {
    if Silent(s, a) then SilentMove(s, next) else Audited(s, next)
  }

  lemma StagingIsAudited(s: State, a: Action)
    requires Anchored(s) && (a.StageIsolation? || a.StageTopology? || a.StageVlan? || a.Discard?)
    ensures Audited(s, Transition(s, a))
  {
  }

  lemma ReviewIsAudited(s: State, a: Action)
    requires Anchored(s)
    requires a.ObserveNativeCapability? || a.RecordEvidence? || a.SetNote? || a.Validate? || a.InspectDrift?
    ensures Audited(s, Transition(s, a))
  {
  }

  lemma ScenarioIsAudited(s: State, a: Action)
    requires Anchored(s) && a.SelectScenario?
    ensures StepAudited(s, a, Transition(s, a))
  {
  }

  lemma TickIsAudited(s: State, now: int)
    ensures Audited(s, RollBack(s, now)) && Audited(s, StepTick(s, now))
  {
  }

  lemma StartIsAudited(s: State, a: Action)
    requires Anchored(s) && a.Start?
    ensures Audited(s, Transition(s, a))
  {
    assert Transition(s, a) == StepStart(s, a.desktop, a.now);
  }

  lemma RebaseIsAudited(s: State, a: Action)
    requires Anchored(s) && a.Rebase?
    ensures Audited(s, Transition(s, a))
  {
  }

  lemma ConfirmIsAudited(s: State, now: int)
    requires Anchored(s)
    ensures Audited(s, StepConfirm(s, now))
  {
    TickIsAudited(s, now);
  }

  lemma ReconcileIsAudited(s: State, a: Action)
    requires Anchored(s) && a.Reconcile?
    ensures Audited(s, Transition(s, a))
  {
  }

  lemma RollbackIsAudited(s: State, now: int)
    ensures Audited(s, StepRollback(s, now))
  {
    TickIsAudited(s, now);
  }

  lemma ReconnectIsAudited(s: State, now: int)
    ensures Audited(s, StepReconnect(s, now))
  {
    TickIsAudited(Log(s.(scenario := Normal), now, Event, ConnectionRestored), now);
  }

  lemma DecisionIsAudited(s: State, a: Action)
    requires Anchored(s) && (a.Confirm? || a.Rollback? || a.Tick? || a.Reconnect?)
    ensures Audited(s, Transition(s, a))
  {
    match a
    case Confirm(now) => ConfirmIsAudited(s, now);
    case Rollback(now) => RollbackIsAudited(s, now);
    case Tick(now) => TickIsAudited(s, now);
    case Reconnect(now) => ReconnectIsAudited(s, now);
    case _ =>
  }

  lemma StepIsAudited(s: State, a: Action)
    requires Anchored(s)
    ensures StepAudited(s, a, Transition(s, a))
  {
    if a.StageIsolation? || a.StageTopology? || a.StageVlan? || a.Discard? {
      StagingIsAudited(s, a);
    } else if a.Start? {
      StartIsAudited(s, a);
    } else if a.Rebase? {
      RebaseIsAudited(s, a);
    } else if a.Reconcile? {
      ReconcileIsAudited(s, a);
    } else if a.Confirm? || a.Rollback? || a.Tick? || a.Reconnect? {
      DecisionIsAudited(s, a);
    } else if a.SelectScenario? {
      ScenarioIsAudited(s, a);
    } else {
      ReviewIsAudited(s, a);
    }
  }

  /**
   * Evidence is only appended, and a change of the transaction, the candidate, the generation, the sequence,
   * the live values or the native feature goes unrecorded exactly when a countdown is made uncertain by
   * selecting that scenario.
   */
  lemma EveryOtherChangeIsAudited(s: State, a: Action)
    requires Anchored(s)
    ensures s.evidence <= Transition(s, a).evidence
    ensures !SameProtectedState(s, Transition(s, a)) && |Transition(s, a).evidence| == |s.evidence| <==> Silent(s, a)
  {
    StepIsAudited(s, a);
    UnrecordedExactlyWhen(s, a, Transition(s, a));
  }

  lemma UnrecordedExactlyWhen(s: State, a: Action, next: State)
    requires StepAudited(s, a, next)
    ensures s.evidence <= next.evidence
    ensures !SameProtectedState(s, next) && |next.evidence| == |s.evidence| <==> Silent(s, a)
  {
  }

  predicate SilentAt(r: Run, x: nat)
    requires r.Shaped() && x < |r.actions|
  {
    Silent(r.states[x], r.actions[x])
  }

  lemma StepOfARunIsAudited(r: Run, x: nat)
    requires ReducerSteps(r) && x < |r.actions|
    ensures StepAudited(r.states[x], r.actions[x], r.states[x + 1])
  {
    assert ReducerStep(r, x);
    StepIsAudited(r.states[x], r.actions[x]);
  }

  /**
   * Along any run the evidence is append-only, and equal evidence means an equal protected state, except that
   * a countdown is uncertain afterwards exactly when the silent move was made in between.
   */
  lemma {:induction false} EvidenceAccountsForTheState(r: Run, i: nat, j: nat)
    requires ReducerSteps(r) && i <= j <= |r.actions|
    ensures r.states[i].evidence <= r.states[j].evidence
    ensures |r.states[i].evidence| == |r.states[j].evidence| ==>
      if forall x :: i <= x < j ==> !SilentAt(r, x) then SameProtectedState(r.states[i], r.states[j])
      else r.states[i].transaction.status.Countdown? && SameProtectedState(Uncertained(r.states[i]), r.states[j])
    decreases j
  {
    if i < j {
      EvidenceAccountsForTheState(r, i, j - 1);
      StepOfARunIsAudited(r, j - 1);
      assert SilentAt(r, j - 1) <==> Silent(r.states[j - 1], r.actions[j - 1]);
    }
  }

  // ---- what every entry says ----

  /** The object a state is about: that of an open transaction, else of the candidate, else of the last transaction. */
  function SubjectOf(s: State): string {
    if Locked(s.transaction.status) && s.transaction.snapshot.Some? then s.transaction.snapshot.value.Object()
    else if s.candidate.Some? then s.candidate.value.Object()
    else if s.transaction.snapshot.Some? then s.transaction.snapshot.value.Object()
    else "Workspace/ws-183"
  }

  /** Every new entry carries the time of the action, the job of the transaction and the object the state is about. */
  predicate Told(s: State, now: int, next: State) {
    forall i :: |s.evidence| <= i < |next.evidence| ==>
      && next.evidence[i].at == now && next.evidence[i].subject == SubjectOf(next)
      && next.evidence[i].correlation == (if next.transaction.job.Some? then JobCorrelation(next.transaction.job.value)
                                          else WorkspaceCorrelation)
  }

  /** The time an action was taken; two of them have none and record nothing. */
  function Clock(a: Action): int {
    match a
    case ObserveNativeCapability(_) => 0
    case SetNote(_) => 0
    case _ => a.now
  }

  lemma StagingIsTold(s: State, a: Action)
    requires Anchored(s) && (a.StageIsolation? || a.StageTopology? || a.StageVlan? || a.Discard?)
    ensures Told(s, a.now, Transition(s, a))
  {
  }

  lemma ReviewIsTold(s: State, a: Action)
    requires Anchored(s)
    requires a.ObserveNativeCapability? || a.SetNote? || a.SelectScenario? || a.Validate? || a.InspectDrift?
    ensures Told(s, Clock(a), Transition(s, a))
  {
  }

  lemma RollBackIsTold(s: State, now: int)
    requires Invariant(s) && s.transaction.status.Countdown?
    ensures Told(s, now, RollBack(s, now))
  {
  }

  lemma TickIsTold(s: State, now: int)
    requires Invariant(s)
    ensures Told(s, now, StepTick(s, now))
  {
    if s.transaction.status.Countdown? { RollBackIsTold(s, now); }
  }

  lemma StartIsTold(s: State, a: Action)
    requires Anchored(s) && a.Start?
    ensures Told(s, a.now, Transition(s, a))
  {
    assert Transition(s, a) == StepStart(s, a.desktop, a.now);
  }

  lemma RebaseIsTold(s: State, a: Action)
    requires Anchored(s) && a.Rebase?
    ensures Told(s, a.now, Transition(s, a))
  {
  }

  lemma ConfirmIsTold(s: State, now: int)
    requires Invariant(s)
    ensures Told(s, now, StepConfirm(s, now))
  {
    TickIsTold(s, now);
  }

  lemma ReconcileIsTold(s: State, a: Action)
    requires Invariant(s) && a.Reconcile?
    ensures Told(s, a.now, Transition(s, a))
  {
  }

  lemma RollbackIsTold(s: State, now: int)
    requires Invariant(s)
    ensures Told(s, now, StepRollback(s, now))
  {
    if s.transaction.status.Countdown? { RollBackIsTold(s, now); }
  }

  lemma SameSubjectAfterTick(s: State, now: int)
    requires Invariant(s)
    ensures SubjectOf(StepTick(s, now)) == SubjectOf(s) && StepTick(s, now).transaction.job == s.transaction.job
    ensures s.evidence <= StepTick(s, now).evidence
  {
  }

  lemma ReconnectIsTold(s: State, now: int)
    requires Invariant(s)
    ensures Told(s, now, StepReconnect(s, now))
  {
    if s.scenario.NetworkLoss? {
      var connected := Log(s.(scenario := Normal), now, Event, ConnectionRestored);
      TickIsTold(connected, now);
      SameSubjectAfterTick(connected, now);
      assert Told(s, now, connected);
    }
  }

  lemma DecisionIsTold(s: State, a: Action)
    requires Invariant(s) && (a.Confirm? || a.Rollback? || a.Tick? || a.Reconnect?)
    ensures Told(s, a.now, Transition(s, a))
  {
    match a
    case Confirm(now) => ConfirmIsTold(s, now);
    case Rollback(now) => RollbackIsTold(s, now);
    case Tick(now) => TickIsTold(s, now);
    case Reconnect(now) => ReconnectIsTold(s, now);
    case _ =>
  }

  /** Whatever an action of the workspace records, it records under its own time, its own job and its own object. */
  lemma EveryEntryIsTold(s: State, a: Action)
    requires Invariant(s) && !a.RecordEvidence?
    ensures Told(s, Clock(a), Transition(s, a))
  {
    if a.StageIsolation? || a.StageTopology? || a.StageVlan? || a.Discard? {
      StagingIsTold(s, a);
    } else if a.Start? {
      StartIsTold(s, a);
    } else if a.Rebase? {
      RebaseIsTold(s, a);
    } else if a.Reconcile? {
      ReconcileIsTold(s, a);
    } else if a.Confirm? || a.Rollback? || a.Tick? || a.Reconnect? {
      DecisionIsTold(s, a);
    } else {
      ReviewIsTold(s, a);
    }
  }

  // ---- starts and resolutions are recorded under their own name ----

  predicate NamesTheJob(s: State, next: State, job: nat) {
    && |next.evidence| > |s.evidence|
    && var entry := next.evidence[|next.evidence| - 1];
    && entry.correlation == JobCorrelation(job)
    && next.transaction.snapshot.Some? && entry.subject == next.transaction.snapshot.value.Object()
  }

  predicate Attributes(s: State, next: State, e: StepEvent) {
    match e
    case Started(job, _) => NamesTheJob(s, next, job)
    case Committed(job, _) => NamesTheJob(s, next, job)
    case RolledBackSafely(job, _) => NamesTheJob(s, next, job)
    case FoundNotApplied(job, _) => NamesTheJob(s, next, job)
    case _ => true
  }

  lemma RollBackIsAttributed(s: State, a: Action, now: int)
    requires Invariant(s) && s.transaction.status.Countdown?
    ensures Attributes(s, RollBack(s, now), EventOf(s, a, RollBack(s, now)))
  {
  }

  lemma TickIsAttributed(s: State, a: Action, now: int)
    requires Invariant(s)
    ensures Attributes(s, StepTick(s, now), EventOf(s, a, StepTick(s, now)))
  {
    if s.transaction.status.Countdown? { RollBackIsAttributed(s, a, now); }
  }

  lemma StartIsAttributed(s: State, a: Action)
    requires Invariant(s) && a.Start?
    ensures Attributes(s, StepStart(s, a.desktop, a.now), EventOf(s, a, StepStart(s, a.desktop, a.now)))
  {
  }

  lemma ConfirmIsAttributed(s: State, a: Action)
    requires Invariant(s) && a.Confirm?
    ensures Attributes(s, StepConfirm(s, a.now), EventOf(s, a, StepConfirm(s, a.now)))
  {
    TickIsAttributed(s, a, a.now);
  }

  lemma ReconnectIsAttributed(s: State, a: Action)
    requires Invariant(s) && a.Reconnect?
    ensures Attributes(s, StepReconnect(s, a.now), EventOf(s, a, StepReconnect(s, a.now)))
  {
    TickIsAttributed(Log(s.(scenario := Normal), a.now, Event, ConnectionRestored), a, a.now);
  }

  lemma ReconcileIsAttributed(s: State, a: Action)
    requires Invariant(s) && a.Reconcile?
    ensures Attributes(s, StepReconcile(s, a.result, a.now), EventOf(s, a, StepReconcile(s, a.result, a.now)))
  {
  }

  lemma RollbackIsAttributed(s: State, a: Action)
    requires Invariant(s) && a.Rollback?
    ensures Attributes(s, StepRollback(s, a.now), EventOf(s, a, StepRollback(s, a.now)))
  {
    if s.transaction.status.Countdown? { RollBackIsAttributed(s, a, a.now); }
  }

  lemma DeadlineActionsAreAttributed(s: State, a: Action)
    requires Invariant(s) && (a.Rollback? || a.Tick? || a.Reconnect?)
    ensures Attributes(s, Transition(s, a), EventOf(s, a, Transition(s, a)))
  {
    match a
    case Rollback(_) => RollbackIsAttributed(s, a);
    case Tick(now) => TickIsAttributed(s, a, now);
    case _ => ReconnectIsAttributed(s, a);
  }

  /** Every start and every resolution is recorded last, under its own job and its own object. */
  lemma ResolutionsAreAttributed(s: State, a: Action)
    requires Invariant(s)
    ensures Attributes(s, Transition(s, a), EventOf(s, a, Transition(s, a)))
  {
    match a
    case Start(_, _) => StartIsAttributed(s, a);
    case Confirm(_) => ConfirmIsAttributed(s, a);
    case Reconcile(_, _) => ReconcileIsAttributed(s, a);
    case Rollback(_) => DeadlineActionsAreAttributed(s, a);
    case Tick(_) => DeadlineActionsAreAttributed(s, a);
    case Reconnect(_) => DeadlineActionsAreAttributed(s, a);
    case _ => OtherActionsResolveNothing(s, a, Transition(s, a), EventOf(s, a, Transition(s, a)));
  }

  lemma OtherActionsResolveNothing(s: State, a: Action, next: State, e: StepEvent)
    requires Invariant(s) && next == Transition(s, a) && e == EventOf(s, a, next)
    requires !a.Start? && !a.Confirm? && !a.Rollback? && !a.Tick? && !a.Reconnect? && !a.Reconcile?
    ensures !e.Started? && !e.Committed? && !e.RolledBackSafely? && !e.FoundNotApplied?
  {
    StepIsGood(s, a);
  }
}
