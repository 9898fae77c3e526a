/** When each action is accepted, and everything it changes then; a rejected action changes its message only. */
module SafeApplyAcceptance {
  import opened Strings
  import opened Vocabulary
  import opened Vlan
  import opened ChangeControl
  import opened SafeApply
  import NC = NativeCapability

  /** Either the action is refused and only its message changes, or it leads to `after`, told in new evidence. */
  predicate Decides(s: State, next: State, accepted: bool, after: State) {
    if accepted then
      next == after.(error := None, message := next.message, evidence := next.evidence) && s.evidence <= next.evidence
    else next.error.Some? && next == s.(error := next.error, message := next.message)
  }

  /** The workspace with a new candidate: nothing is validated and no transaction is under way. */
  function WithCandidate(s: State, c: Candidate): State {
    s.(candidate := Some(c), validatedRevision := None, transaction := NO_TRANSACTION)
  }

  predicate AuthorityReachable(scenario: Scenario) {
    scenario !in {Scenario.PermissionDenied, Scenario.ProviderUnavailable, Scenario.Error, Scenario.NetworkLoss}
  }

  // ---- staging ----

  /** A VLAN change is staged exactly for a manageable Port, a valid value and a real change of the one open intent. */
  lemma VlanStagingExactlyWhen(s: State, port: Port, mine: VlanValue, desktop: bool, now: int)
    requires Invariant(s)
    ensures
      var open := s.candidate;
      var samePort := open.Some? && open.value.VlanCandidate? && open.value.port.name == port.name;
      var base := if samePort then open.value.base else if port.name in s.live then s.live[port.name] else port.config;
      var revision := if samePort then open.value.revision + 1 else 1;
      Decides(s, Transition(s, StageVlan(port, mine, desktop, now)),
              && desktop && !Locked(s.transaction.status) && AuthorityReachable(s.scenario)
              && !port.scope.Observe? && port.authority.Ovs? && Valid(mine)
              && (open.None? || samePort) && !SameVlan(base, mine),
              WithCandidate(s, VlanCandidate(port, base, mine, s.generation, revision)))
  {
    assert Transition(s, StageVlan(port, mine, desktop, now)) == StepStageVlan(s, port, mine, desktop, now);
  }

  /** A complete change of a Bridge or of a Bond's Port, none of which is reserved. */
  predicate EditableIntent(i: Intent) {
    && ((i.kind.BridgeIntent? && i.objectType == "Bridge") || (i.kind.BondIntent? && i.objectType == "Port"))
    && ObjectName(i.objectName) && i.objectName !in {"bond-provider", "br-offload"}
    && i.bridgeName != Some("br-offload")
    && i.evidenceObject == i.objectType + "/" + i.objectName
    && Trim(i.current) != "" && Trim(i.candidate) != "" && i.current != i.candidate
  }

  lemma TopologyIsUnblockedExactlyWhen(s: State, intent: Intent, desktop: bool)
    requires Invariant(s)
    ensures StageTopologyBlock(s, intent, desktop).None? <==>
      && desktop && !Locked(s.transaction.status)
      && AuthorityReachable(s.scenario) && !s.scenario.ProviderDegraded?
      && EditableIntent(intent)
      && (s.candidate.None? ||
          (s.candidate.value.Kind() == intent.kind && s.candidate.value.Name() == intent.objectName))
  {
  }

  /** A topology intent is staged exactly if it is well formed, editable and about the object of the open intent. */
  lemma TopologyStagingExactlyWhen(s: State, intent: Intent, desktop: bool, now: int)
    requires Invariant(s)
    ensures
      var open := s.candidate;
      var revision := if open.Some? then open.value.revision + 1 else 1;
      Decides(s, Transition(s, StageTopology(intent, desktop, now)),
              && desktop && !Locked(s.transaction.status)
              && AuthorityReachable(s.scenario) && !s.scenario.ProviderDegraded?
              && EditableIntent(intent)
              && (open.None? || (open.value.Kind() == intent.kind && open.value.Name() == intent.objectName)),
              WithCandidate(s, TopologyCandidate(intent.kind, intent, s.generation, revision)))
  {
    TopologyIsUnblockedExactlyWhen(s, intent, desktop);
    assert Transition(s, StageTopology(intent, desktop, now)) == StepStageTopology(s, intent, desktop, now);
  }

  /** The one native change: protecting the declared Port of the declared Bridge. */
  predicate ProtectsTheTarget(intent: Intent, highRisk: bool) {
    && intent.kind.IsolationIntent? && intent.objectType == "Port" && intent.objectName == NC.TARGET_PORT
    && intent.bridgeName == Some(NC.TARGET_BRIDGE) && intent.evidenceObject == NC.TARGET && intent.highRisk == highRisk
  }

  /** Isolation is staged exactly on an empty workspace, in the normal scenario, on a proof that passes every gate. */
  lemma IsolationStagingExactlyWhen(s: State, desktop: bool, impactAccepted: bool, now: int)
    requires Invariant(s)
    ensures
      var next := Transition(s, StageIsolation(desktop, impactAccepted, now));
      var accepted :=
        && desktop && impactAccepted && !Locked(s.transaction.status) && s.candidate.None? && s.scenario.Normal?
        && NC.PolicyBlock(s.nativeCapability, Normal, s.generation, now).None?
        && s.nativeCapability.value.enabled == Some(false);
      if accepted then
        && next.candidate.Some? && next.candidate.value.TopologyCandidate?
        && ProtectsTheTarget(next.candidate.value.intent, s.nativeCapability.value.highRisk)
        && var c := TopologyCandidate(IsolationIntent, next.candidate.value.intent, s.generation, 1);
        && Decides(s, next, true, WithCandidate(s, c))
      else Decides(s, next, false, s)
  {
    assert Transition(s, StageIsolation(desktop, impactAccepted, now))
        == StepStageIsolation(s, desktop, impactAccepted, now);
  }

  // ---- review ----

  /** A candidate is discarded exactly while no transaction owns it. */
  lemma DiscardingExactlyWhen(s: State, now: int)
    requires Invariant(s)
    ensures Decides(s, Transition(s, Discard(now)), !Locked(s.transaction.status),
                    s.(candidate := None, validatedRevision := None))
  {
  }

  /**
   * A known scenario is selected at any time and costs the validation; only a running countdown reacts to one of them.
   */
  lemma SelectingExactlyWhen(s: State, requested: Option<Scenario>, now: int)
    requires Invariant(s)
    ensures
      var next := Transition(s, SelectScenario(requested, now));
      && next.evidence == s.evidence
      && Decides(s, next, requested.Some?,
                 if requested.None? then s
                 else
                   var status := s.transaction.status;
                   s.(scenario := requested.value, validatedRevision := None,
                      transaction := s.transaction.(status := if requested.value.OutcomeUnknown? && status.Countdown?
                                                              then ApplyState.OutcomeUnknown else status)))
  {
  }

  /** A note is taken at any time and costs nothing; an observation costs only the validation of an isolation change. */
  lemma NotesAndObservationsAreFree(s: State, note: string, proof: Option<NC.Proof>)
    requires Invariant(s)
    ensures Transition(s, SetNote(note)) == s.(note := note, error := None)
    ensures
      var observed := Transition(s, ObserveNativeCapability(proof));
      var costs := s.candidate.Some? && s.candidate.value.Isolation();
      observed == s.(nativeCapability := proof, validatedRevision := if costs then None else s.validatedRevision)
  {
  }

  /** Evidence of other models is appended as given and changes nothing else. */
  lemma ForeignEvidenceIsAppended(s: State, kind: EvidenceKind, text: string, subject: string, correlation: string,
                                  now: int)
    requires Invariant(s)
    ensures
      var entry := EvidenceEntry(now, kind, ForeignText(text), subject, ForeignCorrelation(correlation));
      Transition(s, RecordEvidence(kind, text, subject, correlation, now)) == s.(evidence := s.evidence + [entry])
  {
  }

  /**
   * A candidate is validated exactly in the normal scenario and, for isolation, on a proof that would admit staging.
   */
  lemma ValidatingExactlyWhen(s: State, now: int)
    requires Invariant(s)
    ensures Decides(s, Transition(s, Validate(now)),
                    && s.candidate.Some? && !Locked(s.transaction.status) && s.scenario.Normal?
                    && (s.candidate.value.Isolation() ==>
                          && NC.PolicyBlock(s.nativeCapability, Normal, s.generation, now).None?
                          && s.nativeCapability.value.enabled == Some(false)),
                    if s.candidate.Some? then s.(validatedRevision := Some(s.candidate.value.revision)) else s)
  {
    assert Transition(s, Validate(now)) == StepValidate(s, now);
  }

  lemma InspectingDriftExactlyWhen(s: State, now: int)
    requires Invariant(s)
    ensures Decides(s, Transition(s, InspectDrift(now)), s.scenario.Drift? && !Locked(s.transaction.status),
                    s.(scenario := Normal, validatedRevision := None))
  {
  }

  // ---- rebasing ----

  /** What the Port turns out to carry: in a conflict access 130, or 140 where the base already had that tag. */
  function ObservedValue(s: State, c: Candidate): VlanValue
    requires c.VlanCandidate?
  {
    if !s.scenario.Conflict? then c.base
    else VlanValue(Access, Some(if c.base.tag == Some(130.0) then 140.0 else 130.0), "")
  }

  /** The candidate after a rebase: given up for the current value, or kept on the new base and generation. */
  function RebasedCandidate(s: State, c: Candidate, choice: RebaseChoice): Option<Candidate> {
    if choice.KeepCurrent? then None
    else if c.VlanCandidate? then
      Some(VlanCandidate(c.port, ObservedValue(s, c), c.mine, s.generation + 1, c.revision + 1))
    else Some(TopologyCandidate(c.kind, c.intent, s.generation + 1, c.revision + 1))
  }

  function AfterRebase(s: State, choice: RebaseChoice): State {
    if s.candidate.None? then s
    else
      var c := s.candidate.value;
      s.(candidate := RebasedCandidate(s, c, choice), generation := s.generation + 1, scenario := Normal,
         validatedRevision := None,
         live := if c.VlanCandidate? then s.live[c.port.name := ObservedValue(s, c)] else s.live)
  }

  /**
   * A rebase is accepted exactly if the choice fits: a stale base takes only the non-overlapping one, a conflict
   * the current value or, for a VLAN, the change itself. The current value gives the candidate up; otherwise it is
   * kept on the value that the Port now carries.
   */
  lemma RebasingExactlyWhen(s: State, choice: RebaseChoice, now: int)
    requires Invariant(s)
    ensures
      var vlan := s.candidate.Some? && s.candidate.value.VlanCandidate?;
      Decides(s, Transition(s, Rebase(choice, now)),
              && s.candidate.Some? && !Locked(s.transaction.status)
              && (|| (s.scenario.Stale? && choice.NonOverlapping?)
                  || (s.scenario.Conflict? && (choice.KeepCurrent? || (choice.KeepMine? && vlan)))),
              AfterRebase(s, choice))
  {
    assert Transition(s, Rebase(choice, now)) == StepRebase(s, choice, now);
  }

  // ---- the provisional transaction ----

  /** A refused start changes nothing; an accepted one keeps reason, validation and scenario beside what it opens. */
  lemma StartingKeepsTheRest(s: State, desktop: bool, now: int)
    requires Invariant(s)
    ensures
      var next := Transition(s, Start(desktop, now));
      if next.error.Some? then Decides(s, next, false, s)
      else
        && next.note == s.note && next.validatedRevision == s.validatedRevision && next.scenario == s.scenario
        && next.candidate == s.candidate
  {
    assert Transition(s, Start(desktop, now)) == StepStart(s, desktop, now);
  }

  /**
   * A confirmation commits exactly a countdown before its deadline, in the normal scenario and on an admitting proof.
   */
  lemma ConfirmingExactlyWhen(s: State, now: int)
    requires Invariant(s)
    ensures !s.transaction.status.Countdown? ==> Decides(s, Transition(s, Confirm(now)), false, s)
    ensures s.transaction.status.Countdown? && now < s.transaction.deadline.value ==>
      var next := Transition(s, Confirm(now));
      if && s.scenario.Normal?
         && (s.candidate.value.Isolation() ==> NC.ConfirmBlock(s.nativeCapability, Normal, s.generation, now).None?)
      then next.transaction.status.Confirmed? && next.scenario.Normal? && next.note == s.note && next.error.None?
      else Decides(s, next, false, s)
  {
    assert Transition(s, Confirm(now)) == StepConfirm(s, now);
  }

  /** The evidence on which an isolation change may be undone. */
  predicate Undoable(s: State, now: int) {
    && NC.Fresh(s.nativeCapability, s.generation, now)
    && var p := s.nativeCapability.value;
    && p.enabled == Some(true) && p.normalSwitching && p.rollback && p.checkpoint && p.authority.LocalOvs?
    && p.provider.Available?
    && s.scenario !in {Scenario.ProviderDegraded, Scenario.Degraded, Scenario.ProviderUnavailable, Scenario.Error,
                       Scenario.Loading, Scenario.Empty}
  }

  /** Nothing was changed from outside, and an isolation change has its evidence. */
  predicate CanRestore(s: State, now: int) {
    && s.scenario !in {Scenario.RollbackConflict, Scenario.Conflict, Scenario.Stale, Scenario.Drift}
    && (s.transaction.snapshot.Some? && s.transaction.snapshot.value.Isolation() ==> Undoable(s, now))
  }

  /** A countdown that ends by itself: restored, or stopped in the conflict that nothing overwrites. */
  predicate Ends(s: State, next: State, now: int) {
    && next.error.None? && next.scenario == s.scenario && next.note == s.note && next.transaction.deadline.None?
    && (if CanRestore(s, now) then next.transaction.status.RolledBack? else next.transaction.status.RollbackConflict?)
  }

  lemma RollBackEnds(s: State, now: int)
    ensures Ends(s, RollBack(s, now), now)
  {
  }

  /** A manual rollback is accepted exactly on a connected countdown, for isolation with all its evidence. */
  lemma RollingBackExactlyWhen(s: State, now: int)
    requires Invariant(s)
    ensures
      var next := Transition(s, Rollback(now));
      var accepted :=
        && s.transaction.status.Countdown? && !s.scenario.NetworkLoss?
        && (s.candidate.value.Isolation() ==>
              NC.RollbackBlock(s.nativeCapability, s.scenario, s.generation, now).None?);
      && (if accepted then Ends(s, next, now) else Decides(s, next, false, s))
      && (accepted && s.candidate.value.Isolation() ==> next.transaction.status.RolledBack?)
  {
    assert Transition(s, Rollback(now)) == StepRollback(s, now);
    RollBackEnds(s, now);
  }

  lemma TickEnds(s: State, now: int)
    requires Invariant(s)
    ensures
      var next, t := StepTick(s, now), s.transaction;
      if !t.status.Countdown? || now < t.deadline.value then next == s
      else if s.scenario.NetworkLoss? then
        next == s.(transaction := t.(status := ApplyState.OutcomeUnknown), error := None, message := next.message,
                   evidence := next.evidence)
      else Ends(s, next, now)
  {
    RollBackEnds(s, now);
  }

  /** An expiry ends every countdown: uncertain without a connection, otherwise restored or in the conflict. */
  lemma ExpiryEndsTheCountdown(s: State, now: int)
    requires Invariant(s)
    ensures
      var next, t := Transition(s, Tick(now)), s.transaction;
      if !t.status.Countdown? || now < t.deadline.value then next == s
      else if s.scenario.NetworkLoss? then
        next == s.(transaction := t.(status := ApplyState.OutcomeUnknown), error := None, message := next.message,
                   evidence := next.evidence)
      else Ends(s, next, now)
  {
    TickEnds(s, now);
  }

  /** A reconnection is accepted exactly after a loss, and at once ends a countdown that is due. */
  lemma ReconnectingExactlyWhen(s: State, now: int)
    requires Invariant(s)
    ensures
      var next, t := Transition(s, Reconnect(now)), s.transaction;
      if !s.scenario.NetworkLoss? then Decides(s, next, false, s)
      else if t.status.Countdown? && t.deadline.value <= now then Ends(s.(scenario := Normal), next, now)
      else Decides(s, next, true, s.(scenario := Normal))
  {
    if s.scenario.NetworkLoss? {
      var connected := Log(s.(scenario := Normal), now, Event, ConnectionRestored);
      assert Transition(s, Reconnect(now)) == StepTick(connected, now);
      TickEnds(connected, now);
    }
  }

  /** A result is read exactly for an uncertain transaction of a connected client, and decides its status. */
  lemma ReconcilingExactlyWhen(s: State, result: Option<Reconciliation>, now: int)
    requires Invariant(s)
    ensures
      var next := Transition(s, Reconcile(result, now));
      if s.scenario.NetworkLoss? || !Uncertain(s.transaction.status) || result.None? then Decides(s, next, false, s)
      else
        && next.error.None? && next.scenario.Normal? && next.note == s.note && next.validatedRevision.None?
        && next.transaction.deadline.None?
        && match result.value
           case ResultApplied => next.transaction.status.Applied? && next.candidate.None?
           case ResultNotApplied => next.transaction.status.NotApplied? && next.candidate == s.candidate
           case ResultDegraded => next.transaction.status.Degraded? && next.candidate == s.candidate
           case ResultNeedsAttention => next.transaction.status.NeedsAttention? && next.candidate == s.candidate
  {
    assert Transition(s, Reconcile(result, now)) == StepReconcile(s, result, now);
  }
}
