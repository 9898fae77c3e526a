/** Deadlines, evidence age, locks and the base of a candidate in Safe Apply. */
module SafeApplyTime {
  import opened Strings
  import opened Vocabulary
  import opened Vlan
  import opened ChangeControl
  import opened SafeApply
  import opened SafeApplyRuns
  import NC = NativeCapability

  // ---- countdown arithmetic ----

  /** The remaining time is the number of whole seconds begun, and it is zero exactly from the deadline on. */
  lemma RemainingSecondsIsTheCeiling(t: Transaction, now: int)
    requires t.deadline.Some?
    ensures
      var left, seconds := t.deadline.value - now, RemainingSeconds(t, now);
      && (seconds == 0 <==> t.deadline.value <= now)
      && (left > 0 ==> 1000 * (seconds - 1) < left <= 1000 * seconds)
  {
  }

  /** A confirmation at or past the deadline commits nothing: it is exactly the tick. */
  lemma LateConfirmIsTheTick(s: State, now: int)
    requires Invariant(s) && s.transaction.status.Countdown? && s.transaction.deadline.value <= now
    ensures Transition(s, Confirm(now)) == Transition(s, Tick(now))
    ensures Transition(s, Confirm(now)).live == s.live && !Transition(s, Confirm(now)).transaction.status.Confirmed?
  {
    RemainingSecondsIsTheCeiling(s.transaction, now);
  }

  function Ticks(s: State, times: seq<int>): State
    decreases |times|
  {
    if times == [] then s else Ticks(StepTick(s, times[0]), times[1..])
  }

  lemma {:induction false} TicksAfterTheCountdown(s: State, times: seq<int>)
    requires !s.transaction.status.Countdown?
    ensures Ticks(s, times) == s
  {
    if times != [] { TicksAfterTheCountdown(s, times[1..]); }
  }

  lemma DueTickEndsTheCountdown(s: State, now: int)
    requires s.transaction.status.Countdown? && s.transaction.deadline.Some? && s.transaction.deadline.value <= now
    ensures !StepTick(s, now).transaction.status.Countdown?
  {
    RemainingSecondsIsTheCeiling(s.transaction, now);
  }

  lemma {:induction false} EarlyTicksDoNothing(s: State, times: seq<int>)
    requires s.transaction.status.Countdown? && s.transaction.deadline.Some?
    requires forall i :: 0 <= i < |times| ==> times[i] < s.transaction.deadline.value
    ensures Ticks(s, times) == s
  {
    if times != [] {
      RemainingSecondsIsTheCeiling(s.transaction, times[0]);
      EarlyTicksDoNothing(s, times[1..]);
    }
  }

  /** The first tick of a run at or after the deadline. */
  predicate FirstDue(s: State, times: seq<int>, i: nat)
    requires s.transaction.deadline.Some?
  {
    && i < |times| && times[i] >= s.transaction.deadline.value
    && forall j :: 0 <= j < i ==> times[j] < s.transaction.deadline.value
  }

  lemma {:induction false} FirstDueTickCounts(s: State, times: seq<int>, i: nat)
    requires s.transaction.status.Countdown? && s.transaction.deadline.Some?
    requires FirstDue(s, times, i)
    ensures Ticks(s, times) == StepTick(s, times[i])
  {
    if i == 0 {
      DueTickEndsTheCountdown(s, times[0]);
      TicksAfterTheCountdown(StepTick(s, times[0]), times[1..]);
    } else {
      RemainingSecondsIsTheCeiling(s.transaction, times[0]);
      FirstDueTickCounts(s, times[1..], i - 1);
    }
  }

  /** Any run of ticks has the effect of its first tick at or after the deadline, and none without one. */
  lemma OnlyTheFirstDueTickCounts(s: State, times: seq<int>)
    requires s.transaction.status.Countdown? && s.transaction.deadline.Some?
    ensures (forall i :: 0 <= i < |times| ==> times[i] < s.transaction.deadline.value) ==> Ticks(s, times) == s
    ensures forall i: nat :: FirstDue(s, times, i) ==> Ticks(s, times) == StepTick(s, times[i])
  {
    if forall i :: 0 <= i < |times| ==> times[i] < s.transaction.deadline.value {
      EarlyTicksDoNothing(s, times);
    }
    forall i: nat | FirstDue(s, times, i) ensures Ticks(s, times) == StepTick(s, times[i]) {
      FirstDueTickCounts(s, times, i);
    }
  }

  // ---- the conflict that nothing overwrites, and the way out of every other lock ----

  predicate SameProtectedState(s: State, next: State) {
    && next.transaction == s.transaction && next.candidate == s.candidate && next.generation == s.generation
    && next.sequence == s.sequence && next.live == s.live && next.nativeEnabled == s.nativeEnabled
  }

  lemma ConflictAbsorbsOneStep(s: State, a: Action)
    requires s.transaction.status.RollbackConflict?
    ensures SameProtectedState(s, Transition(s, a))
  {
  }

  lemma ConflictAbsorbsStep(r: Run, i: nat)
    requires ReducerSteps(r) && i < |r.actions| && r.states[i].transaction.status.RollbackConflict?
    ensures SameProtectedState(r.states[i], r.states[i + 1])
  {
    assert ReducerStep(r, i);
    ConflictAbsorbsOneStep(r.states[i], r.actions[i]);
  }

  /** Once a rollback conflict is reached no action sequence changes the protected state. */
  lemma {:induction false} RollbackConflictIsAbsorbing(r: Run, m: nat, n: nat)
    requires ReducerSteps(r) && m <= n <= |r.actions|
    requires r.states[m].transaction.status.RollbackConflict?
    ensures SameProtectedState(r.states[m], r.states[n])
    decreases n
  {
    if m < n {
      RollbackConflictIsAbsorbing(r, m, n - 1);
      ConflictAbsorbsStep(r, n - 1);
    }
  }

  /** The next accepted action on the shortest way out of a lock. */
  function WayOut(s: State, now: int): Action {
    if s.transaction.status.Countdown? then SelectScenario(Some(Scenario.OutcomeUnknown), now)
    else if s.scenario.NetworkLoss? then Reconnect(now)
    else Reconcile(Some(ResultNotApplied), now)
  }

  /**
   * Where the way out leads: a countdown becomes uncertain, a lost connection is restored, an uncertain result is read.
   */
  lemma WayOutStep(s: State, now: int)
    requires Invariant(s) && Locked(s.transaction.status) && !s.transaction.status.RollbackConflict?
    ensures
      var one := Transition(s, WayOut(s, now));
      && one.error.None?
      && one.transaction.snapshot == s.transaction.snapshot
      && (if s.transaction.status.Countdown? then one.transaction.status.OutcomeUnknown? && one.scenario.OutcomeUnknown?
          else if s.scenario.NetworkLoss? then one.transaction.status == s.transaction.status && one.scenario.Normal?
          else one.transaction.status.NotApplied?)
  {
  }

  lemma ReadingEndsTheLock(s: State, now: int)
    requires Anchored(s) && Uncertain(s.transaction.status) && !s.scenario.NetworkLoss?
    ensures WayOut(s, now) == Reconcile(Some(ResultNotApplied), now)
    ensures Transition(s, WayOut(s, now)).error.None? && !Locked(Transition(s, WayOut(s, now)).transaction.status)
  {
  }

  /** Every lock except the rollback conflict is at most two accepted actions from an unlocked workspace. */
  lemma EveryOtherLockHasAWayOut(s: State, now: int)
    requires Invariant(s) && Locked(s.transaction.status) && !s.transaction.status.RollbackConflict?
    ensures
      var one := Transition(s, WayOut(s, now));
      && one.error.None?
      && (Locked(one.transaction.status) ==>
            && Anchored(one)
            && Transition(one, WayOut(one, now)).error.None?
            && !Locked(Transition(one, WayOut(one, now)).transaction.status))
  {
    var one := Transition(s, WayOut(s, now));
    WayOutStep(s, now);
    if Locked(one.transaction.status) { ReadingEndsTheLock(one, now); }
  }

  // ---- isolation changes need young evidence ----

  /**
   * A proof of this generation, less than 60 s old, that the change is applied, local, checkpointed and can be undone.
   */
  predicate CurrentProof(s: State, now: int) {
    && s.nativeCapability.Some? && s.nativeCapability.value.generation == s.generation
    && var p := s.nativeCapability.value;
    && 0 <= now - p.observedAt < NC.CAPABILITY_TTL_MS
    && p.enabled == Some(true) && p.provider.Available? && p.authority.LocalOvs? && p.normalSwitching
    && p.checkpoint && p.rollback
  }

  lemma RollBackNeedsCurrentProof(s: State, now: int)
    requires s.transaction.snapshot.Some? && s.transaction.snapshot.value.Isolation()
    ensures RollBack(s, now).transaction.status.RolledBack? ==> CurrentProof(s, now)
  {
  }

  lemma ConfirmNeedsCurrentProof(s: State, now: int)
    requires Invariant(s) && s.transaction.status.Countdown? && s.candidate.value.Isolation()
    ensures StepConfirm(s, now).transaction.status in {Confirmed, RolledBack} ==> CurrentProof(s, now)
  {
    RollBackNeedsCurrentProof(s, now);
  }

  lemma ReconnectNeedsCurrentProof(s: State, now: int)
    requires Invariant(s) && s.transaction.status.Countdown? && s.candidate.value.Isolation()
    ensures StepReconnect(s, now).transaction.status in {Confirmed, RolledBack} ==> CurrentProof(s, now)
  {
    RollBackNeedsCurrentProof(Log(s.(scenario := Normal), now, Event, ConnectionRestored), now);
  }

  lemma RollbackAndTickNeedCurrentProof(s: State, now: int)
    requires Invariant(s) && s.transaction.status.Countdown? && s.candidate.value.Isolation()
    ensures StepRollback(s, now).transaction.status in {Confirmed, RolledBack} ==> CurrentProof(s, now)
    ensures StepTick(s, now).transaction.status in {Confirmed, RolledBack} ==> CurrentProof(s, now)
  {
    RollBackNeedsCurrentProof(s, now);
  }

  /** An isolation change is confirmed or rolled back only on a current proof, whatever the action. */
  lemma IsolationIsDecidedOnFreshProof(s: State, a: Action)
    requires Invariant(s) && s.transaction.status.Countdown? && s.candidate.value.Isolation()
    requires Transition(s, a).transaction.status in {Confirmed, RolledBack}
    ensures (a.Confirm? || a.Rollback? || a.Tick? || a.Reconnect?) && CurrentProof(s, a.now)
  {
    OnlyDecisionsResolveACountdown(s, a, Transition(s, a), EventOf(s, a, Transition(s, a)));
    match a
    case Reconnect(now) => ReconnectNeedsCurrentProof(s, now);
    case Confirm(now) => ConfirmNeedsCurrentProof(s, now);
    case Rollback(now) => RollbackAndTickNeedCurrentProof(s, now);
    case Tick(now) => RollbackAndTickNeedCurrentProof(s, now);
    case _ =>
  }

  lemma OnlyDecisionsResolveACountdown(s: State, a: Action, next: State, e: StepEvent)
    requires Invariant(s) && s.transaction.status.Countdown? && next == Transition(s, a) && e == EventOf(s, a, next)
    requires next.transaction.status in {Confirmed, RolledBack}
    ensures a.Confirm? || a.Rollback? || a.Tick? || a.Reconnect?
  {
    StepIsGood(s, a);
  }

  /** No observation replaces the proof between the start at `k` and the state `m`. */
  predicate Unobserved(r: Run, k: nat, m: nat)
    requires r.Shaped() && m <= |r.actions|
  {
    forall x :: k < x < m ==> !r.actions[x].ObserveNativeCapability?
  }

  /** While one countdown lasts unobserved, its deadline, proof and generation stay as the start left them. */
  lemma {:induction false} CountdownKeepsTheStart(r: Run, k: nat, m: nat)
    requires Follows(r) && k < m <= |r.actions| && r.events[k].Started?
    requires r.states[m].transaction.status.Countdown? && r.states[m].sequence == r.events[k].job
    requires Unobserved(r, k, m)
    ensures
      && r.states[m].transaction == r.states[k + 1].transaction
      && r.states[m].nativeCapability == r.states[k + 1].nativeCapability
      && r.states[m].generation == r.states[k + 1].generation
    decreases m
  {
    assert AllowedAt(r, k);
    if k + 1 < m {
      assert AllowedAt(r, m - 1);
      SequenceNeverFalls(r, k + 1, m - 1);
      assert r.events[m - 1].Quiet?;
      CountdownKeepsTheStart(r, k, m - 1);
    }
  }

  /** The proof an isolation start leaves behind decides every later decision by its age alone. */
  predicate StartedOn(s: State, start: int) {
    && s.transaction.status.Countdown? && s.transaction.snapshot.Some? && s.transaction.snapshot.value.Isolation()
    && s.transaction.deadline == Some(start + CONFIRM_WINDOW_MS)
    && s.scenario.Normal?
    && s.nativeCapability.Some?
    && s.nativeCapability.value.observedAt == start && s.nativeCapability.value.enabled == Some(true)
    && NC.PolicyBlock(s.nativeCapability, s.scenario, s.generation, start).None?
  }

  lemma IsolationDecisionWindow(s: State, start: int, now: int)
    requires Invariant(s) && StartedOn(s, start)
    ensures now < start + 90_000 ==>
      var confirmed, undone := Transition(s, Confirm(now)), Transition(s, Rollback(now));
      if start <= now < start + 60_000 then
        && confirmed.error.None? && confirmed.transaction.status.Confirmed?
        && undone.error.None? && undone.transaction.status.RolledBack?
      else
        && confirmed == Reject(s, NativeNotice(NC.CapabilityGate))
        && undone == Reject(s, NativeNotice(NC.RollbackEvidenceMissing))
    ensures now >= start + 90_000 ==> Transition(s, Tick(now)).transaction.status.RollbackConflict?
  {
    RemainingSecondsIsTheCeiling(s.transaction, now);
    assert NC.PolicyBlock(s.nativeCapability, s.scenario, s.generation, now) ==
      (if start <= now < start + 60_000 then None else Some(NC.CapabilityGate));
  }

  lemma ProofSurvivesTheStart(p: NC.Proof, generation: nat, start: int, source: NC.ProofSource)
    requires NC.PolicyBlock(Some(p), Normal, generation, start).None?
    ensures NC.PolicyBlock(Some(p.(enabled := Some(true), observedAt := start, source := source)), Normal, generation,
                           start).None?
  {
  }

  /**
   * With no observation after an isolation start at time `start` and the scenario normal again at the
   * decision: confirm and manual rollback are accepted exactly in the first 60 s, refused in the last
   * 30 s of the countdown, and the expiry then ends in the rollback conflict.
   */
  lemma IsolationEvidenceBound(r: Run, k: nat, m: nat, now: int)
    requires ReducerRun(r) && k < m <= |r.actions| && r.events[k].Started? && r.events[k].provisional.Isolation()
    requires r.states[m].transaction.status.Countdown? && r.states[m].sequence == r.events[k].job
    requires r.states[m].scenario.Normal? && Unobserved(r, k, m)
    ensures Anchored(r.states[m]) && r.actions[k].Start?
    ensures
      var s, start := r.states[m], r.actions[k].now;
      && (start <= now < start + 60_000 ==>
            && Transition(s, Confirm(now)).transaction.status.Confirmed?
            && Transition(s, Rollback(now)).transaction.status.RolledBack?)
      && (start + 60_000 <= now < start + 90_000 ==>
            && Transition(s, Confirm(now)) == Reject(s, NativeNotice(NC.CapabilityGate))
            && Transition(s, Rollback(now)) == Reject(s, NativeNotice(NC.RollbackEvidenceMissing)))
      && (start + 90_000 <= now ==> Transition(s, Tick(now)).transaction.status.RollbackConflict?)
  {
    EveryRunFollowsTheProtocol(r);
    assert AllowedAt(r, k) && NativeAt(r, k);
    CountdownKeepsTheStart(r, k, m);
    var before, start := r.states[k], r.actions[k].now;
    assert before.nativeCapability.Some?;
    ProofSurvivesTheStart(before.nativeCapability.value, before.generation, start,
                          NC.ProvisionalApply(Some(r.events[k].job)));
    IsolationDecisionWindow(r.states[m], start, now);
  }

  // ---- the base of a VLAN candidate tracks the live configuration ----

  /** Ports with the same name carry the same configuration, given by `config`. */
  predicate ConsistentPorts(r: Run, config: string -> VlanValue)
    requires r.Shaped()
  {
    forall i :: 0 <= i < |r.actions| ==>
      (r.actions[i].StageVlan? ==> r.actions[i].port.config == config(r.actions[i].port.name))
  }

  predicate BaseIsCurrent(s: State, config: string -> VlanValue) {
    s.candidate.Some? && s.candidate.value.VlanCandidate? ==>
      var c := s.candidate.value;
      && c.port.config == config(c.port.name)
      && c.base == (if c.port.name in s.live then s.live[c.port.name] else c.port.config)
  }

  lemma StepKeepsBaseCurrent(s: State, a: Action, next: State, e: StepEvent, config: string -> VlanValue)
    requires ProtocolStep(s, a, next, e) && BaseIsCurrent(s, config)
    requires a.StageVlan? ==> a.port.config == config(a.port.name)
    ensures BaseIsCurrent(next, config)
  {
  }

  /** In every reachable state the base of a VLAN candidate is the live value of its Port, or the Port's own. */
  lemma {:induction false} BaseTracksLive(r: Run, config: string -> VlanValue, n: nat)
    requires ReducerRun(r) && n <= |r.actions| && ConsistentPorts(r, config)
    ensures BaseIsCurrent(r.states[n], config)
  {
    if n > 0 {
      BaseTracksLive(r, config, n - 1);
      EveryRunFollowsTheProtocol(r);
      var s, a := r.states[n - 1], r.actions[n - 1];
      assert AllowedAt(r, n - 1);
      StepKeepsBaseCurrent(s, a, r.states[n], r.events[n - 1], config);
    }
  }
}
