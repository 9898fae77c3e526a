/** The scenarios and transaction states shared by every resource of the workspace. */
module Vocabulary {

  datatype Scenario =
    | Normal | Loading | Empty | Error | PermissionDenied | ProviderUnavailable | Degraded | Conflict | Stale
    | Drift | ValidationBlocked | OutcomeUnknown | NetworkLoss | RollbackConflict | MemberDown | LacpMismatch
    | ProviderDegraded | AdvancedConfig

  datatype ApplyState =
    | Idle | Countdown | Confirmed | RolledBack | OutcomeUnknown | Applied | NotApplied | Degraded
    | NeedsAttention | RollbackConflict
}

/** Gates on the one native capability that can be enabled: the protected port of a synthetic target. */
module NativeCapability {
  import opened Strings
  import opened Vocabulary

  const TARGET_CODE := "ovs.port.protected"
  const TARGET_PORT := "isolation-demo"
  const TARGET := "Port/isolation-demo"
  const TARGET_BRIDGE := "br-native-demo"
  const TARGET_INSTANCE := "ovs-synthetic-01"
  const CAPABILITY_TTL_MS := 60_000

  datatype Authority = LocalOvs | ExternalController | UnknownAuthority
  datatype Provider = Available | Partial | Unavailable
  datatype ManagementPath = Unaffected | Affected | UnknownPath

  /** Who wrote the evidence: the provider, or one of the steps of a transaction. */
  datatype ProofSource =
    | Observed(text: string)
    | ProvisionalApply(job: Option<nat>)
    | ConfirmedBy(job: Option<nat>)
    | CompareBeforeRollback(job: Option<nat>)

  datatype Proof = Proof(
    code: string, target: string, bridge: string, instance: string, normalSwitching: bool, observedAt: int,
    source: ProofSource, generation: nat, supported: Option<bool>, enabled: Option<bool>, canEnable: bool,
    authority: Authority, authorized: bool, provider: Provider, prerequisites: Option<bool>, validation: bool,
    checkpoint: bool, rollback: bool, impactReviewed: bool, managementPath: ManagementPath, highRisk: bool,
    reauthenticated: bool)

  datatype Freshness = Missing | GenerationMismatch | StaleProof | FreshProof

  function NativeFreshness(proof: Option<Proof>, generation: nat, now: int): Freshness {
    if proof.None? then Missing
    else
      var p := proof.value;
      if p.code != TARGET_CODE || p.target != TARGET || p.bridge != TARGET_BRIDGE || p.instance != TARGET_INSTANCE ||
         p.generation != generation then GenerationMismatch
      else if now < p.observedAt || now - p.observedAt >= CAPABILITY_TTL_MS then StaleProof
      else FreshProof
  }

  predicate Fresh(proof: Option<Proof>, generation: nat, now: int) {
    NativeFreshness(proof, generation, now).FreshProof?
  }

  datatype NativeBlock =
    | CapabilityGate | AuthorityGate | AuthorizationGate | SafetyGate
    | RollbackUnauthorized | RollbackEvidenceMissing | RollbackNotObservable
    | NotAppliedYet | NotDesktop | TransactionPending | ReviewPending | AlreadyEnabled

  predicate ServiceCurrent(scenario: Scenario) {
    scenario !in {Scenario.Loading, Scenario.Error, Scenario.NetworkLoss, Scenario.ProviderUnavailable,
                  Scenario.ProviderDegraded, Scenario.Degraded, Scenario.Stale, Scenario.Empty}
  }

  predicate CapabilityPassed(proof: Option<Proof>, scenario: Scenario, generation: nat, now: int) {
    && proof.Some?
    && Fresh(proof, generation, now)
    && ServiceCurrent(scenario)
    && var p := proof.value;
    && p.code == TARGET_CODE && p.target == TARGET && p.bridge == TARGET_BRIDGE
    && p.supported == Some(true) && p.canEnable && p.provider.Available? && p.prerequisites == Some(true)
  }

  predicate AuthorityPassed(proof: Option<Proof>) {
    proof.Some? && proof.value.authority.LocalOvs? && proof.value.normalSwitching
  }

  predicate AuthorizationPassed(proof: Option<Proof>, scenario: Scenario) {
    !scenario.PermissionDenied? && proof.Some? && proof.value.authorized
  }

  predicate SafetyPassed(proof: Option<Proof>) {
    && proof.Some?
    && var p := proof.value;
    && p.validation && p.checkpoint && p.rollback && p.impactReviewed && p.managementPath.Unaffected?
    && (!p.highRisk || p.reauthenticated)
  }

  /** The first gate that fails, in the order in which the gates are listed. */
  function PolicyBlock(proof: Option<Proof>, scenario: Scenario, generation: nat, now: int): Option<NativeBlock> {
    if !CapabilityPassed(proof, scenario, generation, now) then Some(CapabilityGate)
    else if !AuthorityPassed(proof) then Some(AuthorityGate)
    else if !AuthorizationPassed(proof, scenario) then Some(AuthorizationGate)
    else if !SafetyPassed(proof) then Some(SafetyGate)
    else None
  }

  function ConfirmBlock(proof: Option<Proof>, scenario: Scenario, generation: nat, now: int): Option<NativeBlock> {
    var policy := PolicyBlock(proof, scenario, generation, now);
    if policy.Some? then policy
    else if proof.None? || proof.value.enabled != Some(true) then Some(NotAppliedYet)
    else None
  }

  function RollbackBlock(proof: Option<Proof>, scenario: Scenario, generation: nat, now: int): Option<NativeBlock> {
    if scenario.PermissionDenied? || proof.None? || !proof.value.authorized then Some(RollbackUnauthorized)
    else
      var p := proof.value;
      if !Fresh(proof, generation, now) || !p.provider.Available? || !p.authority.LocalOvs? || !p.normalSwitching ||
         !p.rollback || !p.checkpoint || p.enabled != Some(true) then Some(RollbackEvidenceMissing)
      else if scenario in {Scenario.NetworkLoss, Scenario.ProviderUnavailable, Scenario.ProviderDegraded,
                           Scenario.Degraded, Scenario.Error, Scenario.Loading, Scenario.Empty, Scenario.Stale,
                           Scenario.Drift, Scenario.Conflict, Scenario.RollbackConflict}
        then Some(RollbackNotObservable)
      else None
  }

  /** The separately written list of transaction states that keep a new native change out. */
  predicate NativeLocked(status: ApplyState) {
    status in {ApplyState.Countdown, ApplyState.OutcomeUnknown, ApplyState.RollbackConflict, ApplyState.Degraded,
               ApplyState.NeedsAttention}
  }

  function StageBlock(proof: Option<Proof>, scenario: Scenario, generation: nat, now: int, desktop: bool,
                      status: ApplyState): Option<NativeBlock> {
    if !desktop then Some(NotDesktop)
    else if NativeLocked(status) then Some(TransactionPending)
    else
      var policy := PolicyBlock(proof, scenario, generation, now);
      if policy.Some? then policy
      else if !scenario.Normal? then Some(ReviewPending)
      else if proof.None? || proof.value.enabled != Some(false) then Some(AlreadyEnabled)
      else None
  }

  /** A proof of the declared target and instance and of this generation, less than 60 s old. */
  predicate Recent(p: Proof, generation: nat, now: int) {
    && p.code == "ovs.port.protected" && p.target == "Port/isolation-demo" && p.bridge == "br-native-demo"
    && p.instance == "ovs-synthetic-01" && p.generation == generation && 0 <= now - p.observedAt < 60_000
  }

  /** All gates pass exactly on a recent proof that affirms each prerequisite, from a service that is current. */
  lemma GatesPassExactlyWhen(p: Proof, scenario: Scenario, generation: nat, now: int)
    ensures PolicyBlock(None, scenario, generation, now).Some?
    ensures PolicyBlock(Some(p), scenario, generation, now).None? <==>
      && Recent(p, generation, now)
      && scenario !in {Scenario.Loading, Scenario.Error, Scenario.NetworkLoss, Scenario.ProviderUnavailable,
                       Scenario.ProviderDegraded, Scenario.Degraded, Scenario.Stale, Scenario.Empty,
                       Scenario.PermissionDenied}
      && p.supported == Some(true) && p.canEnable && p.provider.Available? && p.prerequisites == Some(true)
      && p.authority.LocalOvs? && p.normalSwitching && p.authorized
      && p.validation && p.checkpoint && p.rollback && p.impactReviewed && p.managementPath.Unaffected?
      && (p.highRisk ==> p.reauthenticated)
  {
  }

  /**
   * A manual rollback is admitted exactly on a recent, authorized proof of the applied change, with nothing in doubt.
   */
  lemma UndoIsAdmittedExactlyWhen(p: Proof, scenario: Scenario, generation: nat, now: int)
    ensures RollbackBlock(None, scenario, generation, now).Some?
    ensures RollbackBlock(Some(p), scenario, generation, now).None? <==>
      && Recent(p, generation, now) && p.authorized && p.enabled == Some(true)
      && p.provider.Available? && p.authority.LocalOvs? && p.normalSwitching && p.rollback && p.checkpoint
      && scenario in {Scenario.Normal, Scenario.ValidationBlocked, Scenario.OutcomeUnknown, Scenario.MemberDown,
                      Scenario.LacpMismatch, Scenario.AdvancedConfig}
  {
  }
}
