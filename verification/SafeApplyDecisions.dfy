/** Which decisions are accepted, and that an accepted change really goes live. */
module SafeApplyDecisions {
  import opened Strings
  import opened Vocabulary
  import opened Vlan
  import opened ChangeControl
  import opened SafeApply
  import NC = NativeCapability

  /** In invariant states the stale-base check and the second VLAN check of an apply never fire. */
  lemma GuardsThatNeverFire(s: State, now: int)
    requires Invariant(s)
    ensures ValidationBlock(s, now) != Some(StaleBase)
    ensures ValidationBlock(s, now).Some? ==> !ValidationBlock(s, now).value.VlanNotice?
  {
  }

  /**
   * A start is accepted exactly for a validated candidate of an unlocked workspace with a reason, from
   * desktop, and for isolation on a proof that would still admit staging now.
   */
  lemma StartIsAcceptedExactlyWhen(s: State, desktop: bool, now: int)
    requires Invariant(s)
    ensures Transition(s, Start(desktop, now)).error.None? <==>
      && desktop && !Locked(s.transaction.status) && Trim(s.note) != ""
      && s.validatedRevision.Some?
      && (s.candidate.value.Isolation() ==>
            NC.PolicyBlock(s.nativeCapability, Normal, s.generation, now).None?
              && s.nativeCapability.value.enabled == Some(false))
  {
    GuardsThatNeverFire(s, now);
    assert Transition(s, Start(desktop, now)) == StepStart(s, desktop, now);
  }

  /**
   * While a VLAN or topology change is provisional and nothing else changed, confirm, expiry and rollback work as
   * promised.
   */
  lemma OrdinaryCountdownDecisions(s: State, now: int)
    requires Invariant(s) && s.transaction.status.Countdown? && s.scenario.Normal? && !s.candidate.value.Isolation()
    ensures now < s.transaction.deadline.value ==>
      && Transition(s, Confirm(now)).transaction.status.Confirmed?
      && Transition(s, Tick(now)) == s
    ensures now >= s.transaction.deadline.value ==>
      && Transition(s, Confirm(now)).transaction.status.RolledBack?
      && Transition(s, Tick(now)).transaction.status.RolledBack?
    ensures Transition(s, Rollback(now)).transaction.status.RolledBack?
    ensures Transition(s, Rollback(now)).live == s.live
  {
    assert Transition(s, Tick(now)) == StepTick(s, now);
    assert Transition(s, Rollback(now)) == RollBack(s, now);
  }

  /** When the configuration was changed from outside, neither rollback nor expiry overwrites anything. */
  lemma ExternalChangesAreNotOverwritten(s: State, now: int)
    requires Invariant(s) && s.transaction.status.Countdown? && !s.candidate.value.Isolation()
    requires s.scenario in {Scenario.RollbackConflict, Scenario.Conflict, Scenario.Stale, Scenario.Drift}
    ensures Transition(s, Rollback(now)).transaction.status.RollbackConflict?
    ensures now >= s.transaction.deadline.value ==>
      Transition(s, Confirm(now)).transaction.status.RollbackConflict?
        && Transition(s, Tick(now)).transaction.status.RollbackConflict?
    ensures now < s.transaction.deadline.value ==> Transition(s, Confirm(now)) == Reject(s, ConfirmNeedsConnectivity)
  {
    assert Transition(s, Tick(now)) == StepTick(s, now);
    assert Transition(s, Rollback(now)) == RollBack(s, now);
  }

  /** An isolation change that may be confirmed may also be undone, unless drift or a conflict is under review. */
  lemma ConfirmableIsUndoable(proof: Option<NC.Proof>, scenario: Scenario, generation: nat, now: int)
    requires NC.ConfirmBlock(proof, scenario, generation, now).None?
    ensures NC.RollbackBlock(proof, scenario, generation, now).None? <==>
              !scenario.Drift? && !scenario.Conflict? && !scenario.RollbackConflict?
  {
  }

  /** The value a conflict reveals is a valid one that differs from every base it is shown against. */
  lemma ConflictRevealsAnotherValue(base: VlanValue)
    ensures Valid(ConflictCurrent(base)) && !SameVlan(ConflictCurrent(base), base)
  {
    assert (130.0 as real).Floor == 130 && (140.0 as real).Floor == 140;
  }

  // ---- an accepted change is committed ----

  /** A staged candidate that nothing keeps from being validated and started at `now`. */
  predicate Startable(s: State, now: int) {
    && !Locked(s.transaction.status) && s.scenario.Normal?
    && s.candidate.Some? && s.candidate.value.baseGeneration == s.generation
    && (s.candidate.value.VlanCandidate? ==> Valid(s.candidate.value.mine))
    && (s.candidate.value.Isolation() ==> AdmitsIsolation(s, now))
  }

  /** The proof at hand passes every gate and reports the native feature as disabled. */
  predicate AdmitsIsolation(s: State, now: int) {
    && NC.PolicyBlock(s.nativeCapability, Normal, s.generation, now).None?
    && s.nativeCapability.value.enabled == Some(false)
  }

  /** Validating the staged candidate, giving a reason and starting: the accepted steps to a provisional change. */
  function Submitted(staged: State, note: string, now: int): State {
    StepStart(StepValidate(staged, now).(note := note, error := None), true, now)
  }

  lemma NothingBlocksValidation(s: State, now: int)
    requires Startable(s, now)
    ensures ValidationBlock(s, now).None?
  {
  }

  lemma SubmissionIsAccepted(staged: State, note: string, now: int)
    requires Startable(staged, now) && Trim(note) != ""
    ensures
      var c, s := staged.candidate.value, Submitted(staged, note, now);
      && s.transaction == Transaction(Countdown, Some(now + 90_000), Some(c), Some(staged.sequence + 1))
      && s.scenario.Normal? && s.generation == staged.generation && s.live == staged.live
      && s.nativeEnabled == (if c.Isolation() then Some(true) else staged.nativeEnabled)
      && (c.Isolation() ==>
            var provisional := staged.nativeCapability.value.(enabled := Some(true), observedAt := now,
                                                              source := NC.ProvisionalApply(s.transaction.job));
            s.nativeCapability == Some(provisional))
  {
    NothingBlocksValidation(staged, now);
    var checked := StepValidate(staged, now).(note := note, error := None);
    assert Startable(checked, now);
    NothingBlocksValidation(checked, now);
    assert Submitted(staged, note, now) == Submit(checked, now);
  }

  lemma ProvisionalProofAdmitsConfirmation(proof: NC.Proof, generation: nat, start: int, now: int,
                                           source: NC.ProofSource)
    requires NC.PolicyBlock(Some(proof), Normal, generation, start).None? && start <= now < start + 60_000
    ensures
      var provisional := proof.(enabled := Some(true), observedAt := start, source := source);
      NC.ConfirmBlock(Some(provisional), Normal, generation, now).None?
  {
  }

  lemma ConfirmationCommits(s: State, c: Candidate, now: int)
    requires s.transaction.status.Countdown? && s.transaction.snapshot == Some(c) && s.scenario.Normal?
    requires s.transaction.deadline.Some? && now < s.transaction.deadline.value
    requires c.Isolation() ==> NC.ConfirmBlock(s.nativeCapability, Normal, s.generation, now).None?
    ensures
      var next := StepConfirm(s, now);
      && next.transaction.status.Confirmed? && next.candidate.None? && next.generation == s.generation + 1
      && next.live == (if c.VlanCandidate? then s.live[c.port.name := c.mine] else s.live)
      && next.nativeEnabled == (if c.Isolation() then Some(true) else s.nativeEnabled)
  {
    assert StepConfirm(s, now) == Commit(s, c, now);
  }

  /** The effect of a change that is started at one time and confirmed at another. */
  predicate GoesThrough(staged: State, provisional: State, confirmed: int) {
    && staged.candidate.Some? && Anchored(provisional)
    && provisional.live == staged.live && provisional.transaction.snapshot == staged.candidate
    && var c, next := staged.candidate.value, StepConfirm(provisional, confirmed);
    && next.transaction.status.Confirmed? && next.candidate.None? && next.generation == staged.generation + 1
    && next.live == (if c.VlanCandidate? then staged.live[c.port.name := c.mine] else staged.live)
    && next.nativeEnabled == (if c.Isolation() then Some(true) else staged.nativeEnabled)
  }

  /**
   * A startable candidate that is validated, given a reason, started and confirmed within 90 s, for isolation
   * within 60 s, is committed: a VLAN goes live on its own Port only, isolation is enabled, nothing else changes.
   */
  lemma StartableChangeGoesThrough(staged: State, note: string, now: int, confirmed: int)
    requires Startable(staged, now) && Trim(note) != "" && confirmed < now + 90_000
    requires staged.candidate.value.Isolation() ==> now <= confirmed < now + 60_000
    ensures GoesThrough(staged, Submitted(staged, note, now), confirmed)
  {
    var c, s := staged.candidate.value, Submitted(staged, note, now);
    SubmissionIsAccepted(staged, note, now);
    if c.Isolation() {
      ProvisionalProofAdmitsConfirmation(staged.nativeCapability.value, staged.generation, now, confirmed,
                                         NC.ProvisionalApply(s.transaction.job));
    }
    ConfirmationCommits(s, c, confirmed);
  }

  /** A workspace that can take a new change. */
  predicate IdleWorkspace(s: State) {
    Invariant(s) && !Locked(s.transaction.status) && s.candidate.None? && s.scenario.Normal?
  }

  predicate ReadyToStage(s: State, port: Port, mine: VlanValue) {
    && IdleWorkspace(s) && !port.scope.Observe? && port.authority.Ovs?
    && Valid(mine) && !SameVlan(if port.name in s.live then s.live[port.name] else port.config, mine)
  }

  lemma VlanIsStaged(s: State, port: Port, mine: VlanValue, now: int)
    requires ReadyToStage(s, port, mine)
    ensures
      var staged := StepStageVlan(s, port, mine, true, now);
      && Startable(staged, now)
      && staged.candidate == Some(VlanCandidate(port, StagingBase(s, port), mine, s.generation, 1))
      && staged.generation == s.generation && staged.live == s.live && staged.nativeEnabled == s.nativeEnabled
  {
  }

  lemma TopologyIsStaged(s: State, intent: Intent, now: int)
    requires IdleWorkspace(s) && WellFormedTopology(intent) && !ObserveOnlyTopology(intent)
    ensures
      var staged := StepStageTopology(s, intent, true, now);
      && Startable(staged, now) && staged.candidate == Some(TopologyCandidate(intent.kind, intent, s.generation, 1))
      && staged.generation == s.generation && staged.live == s.live && staged.nativeEnabled == s.nativeEnabled
  {
  }

  lemma IsolationIsStaged(s: State, now: int)
    requires IdleWorkspace(s) && AdmitsIsolation(s, now)
    ensures
      var staged := StepStageIsolation(s, true, true, now);
      && Startable(staged, now) && staged.candidate.Some? && staged.candidate.value.Isolation()
      && staged.generation == s.generation && staged.live == s.live && staged.nativeEnabled == s.nativeEnabled
  {
  }

  /**
   * From any idle workspace, every valid change of a manageable Port that is staged, validated, given a
   * reason, started and confirmed within 90 s goes live, and no other Port changes.
   */
  lemma AcceptedChangeGoesLive(s: State, port: Port, mine: VlanValue, note: string, now: int, confirmed: int)
    requires ReadyToStage(s, port, mine) && Trim(note) != "" && confirmed < now + 90_000
    ensures
      var provisional := Submitted(StepStageVlan(s, port, mine, true, now), note, now);
      && Anchored(provisional) && provisional.live == s.live
      && var next := StepConfirm(provisional, confirmed);
      && next.live == s.live[port.name := mine] && next.nativeEnabled == s.nativeEnabled
      && next.generation == s.generation + 1 && next.candidate.None? && next.transaction.status.Confirmed?
  {
    VlanIsStaged(s, port, mine, now);
    StartableChangeGoesThrough(StepStageVlan(s, port, mine, true, now), note, now, confirmed);
  }

  /** The same for every well-formed Bridge or Bond intent on an editable object; no Port changes. */
  lemma AcceptedTopologyIsCommitted(s: State, intent: Intent, note: string, now: int, confirmed: int)
    requires IdleWorkspace(s) && WellFormedTopology(intent) && !ObserveOnlyTopology(intent)
    requires Trim(note) != "" && confirmed < now + 90_000
    ensures
      var provisional := Submitted(StepStageTopology(s, intent, true, now), note, now);
      && Anchored(provisional) && provisional.live == s.live
      && provisional.transaction.snapshot == Some(TopologyCandidate(intent.kind, intent, s.generation, 1))
      && var next := StepConfirm(provisional, confirmed);
      && next.live == s.live && next.nativeEnabled == s.nativeEnabled
      && next.generation == s.generation + 1 && next.candidate.None? && next.transaction.status.Confirmed?
  {
    TopologyIsStaged(s, intent, now);
    StartableChangeGoesThrough(StepStageTopology(s, intent, true, now), note, now, confirmed);
  }

  /** The same for isolation on a proof that admits staging, confirmed within 60 s: the native feature is enabled. */
  lemma AcceptedIsolationIsEnabled(s: State, note: string, now: int, confirmed: int)
    requires IdleWorkspace(s) && AdmitsIsolation(s, now)
    requires Trim(note) != "" && now <= confirmed < now + 60_000
    ensures
      var provisional := Submitted(StepStageIsolation(s, true, true, now), note, now);
      && Anchored(provisional) && provisional.live == s.live
      && var next := StepConfirm(provisional, confirmed);
      && next.nativeEnabled == Some(true) && next.live == s.live
      && next.generation == s.generation + 1 && next.candidate.None? && next.transaction.status.Confirmed?
  {
    IsolationIsStaged(s, now);
    StartableChangeGoesThrough(StepStageIsolation(s, true, true, now), note, now, confirmed);
  }

  // ---- the unrecorded move is reachable ----

  /** From any idle workspace the provisional change of a Port can be made uncertain without an evidence entry. */
  lemma UnrecordedMoveIsReachable(s: State, port: Port, mine: VlanValue, note: string, now: int, later: int)
    requires ReadyToStage(s, port, mine) && Trim(note) != ""
    ensures
      var provisional := Submitted(StepStageVlan(s, port, mine, true, now), note, now);
      && Anchored(provisional) && provisional.transaction.status.Countdown?
      && var next := Transition(provisional, SelectScenario(Some(Scenario.OutcomeUnknown), later));
      && next.evidence == provisional.evidence && next.transaction != provisional.transaction
  {
    VlanIsStaged(s, port, mine, now);
    SubmissionIsAccepted(StepStageVlan(s, port, mine, true, now), note, now);
  }

  /** The initial workspace is such a state: an access Port moves from VLAN 10 to VLAN 20. */
  lemma InitialWorkspaceIsReady()
    ensures ReadyToStage(INITIAL, Port("p1", VlanValue(Access, Some(10.0), ""), "br0", Manage, Ovs),
                         VlanValue(Access, Some(20.0), ""))
  {
    assert (20.0 as real).Floor == 20;
  }
}
