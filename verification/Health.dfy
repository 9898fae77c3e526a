/** Derived system health: every verdict needs current evidence, and every change of it is logged. */
module Health {
  import opened Strings
  import opened Vocabulary
  import OF = OpenFlow
  import Acc = Acceleration

  datatype Status = Healthy | Recovering | Unknown | Impaired | Critical | RecoveryRequired

  /** The position in `healthStates`. */
  function Severity(s: Status): nat {
    match s
    case Healthy => 0
    case Recovering => 1
    case Unknown => 2
    case Impaired => 3
    case Critical => 4
    case RecoveryRequired => 5
  }

  datatype RowFreshness = Fresh | Stale | Unavailable

  datatype Reason =
    | Given(text: string) | TelemetryDegraded | BondMemberDown | LacpInconsistent | OtherGeneration | Unconfirmed
    | NoObservations | Acceleration(verdict: Acc.Verdict) | CollectionUnavailable | CollectionExpired
    | CollectionPartial | CollectionComplete | RecoveryOpen | ConfirmationPending | DriftOpen | CandidateReview
    | NothingOpen | PreviewOnly | NoDiagnostic | DiagnosticState | AllCurrent | AccessDenied

  datatype Component = Component(id: string, status: Status, reason: Reason, related: string, observedAt: int,
                                 since: int, generation: Option<int>, freshness: RowFreshness,
                                 historical: Option<Status>)

  /** The parts of the control state that health reads. */
  datatype Control = Control(scenario: Scenario, generation: int, transaction: ApplyState, job: string)

  datatype CapabilityFreshness = CapabilityFresh | CapabilityStale | CapabilityMismatch | CapabilityUnavailable
  datatype CapabilityRow = CapabilityRow(id: string, freshness: CapabilityFreshness, provider: Acc.ProviderState,
                                         observedAt: int, generation: Option<int>, reason: string, scope: string)

  datatype Diagnostic = NotStarted | Running | Complete | Failing | Inconclusive

  datatype Signals = Signals(
    capability: Option<seq<CapabilityRow>>, flow: Option<OF.FlowSnapshot>, flowFailed: bool,
    acceleration: Option<Acc.Snapshot>, accelerationFailed: bool,
    diagnostic: Diagnostic, reviewOnly: bool, diagnosticScope: string)

  datatype View = View(components: seq<Component>, overall: Status, reason: Reason, unknown: nat,
                       incidents: seq<Component>)

  const TTL_MS := 60_000

  predicate ReadBlocked(scenario: Scenario) {
    scenario in {Scenario.PermissionDenied, Scenario.NetworkLoss, Scenario.ProviderUnavailable, Scenario.Error,
                 Scenario.Loading}
  }

  // ---- rollup and incidents ----

  function Worse(a: Status, b: Status): Status { if Severity(a) >= Severity(b) then a else b }

  function Rollup(components: seq<Component>): Status {
    if components == [] then Unknown
    else if |components| == 1 then components[0].status
    else Worse(components[0].status, Rollup(components[1..]))
  }

  /** The order of ids; `localeCompare` in the source. */
  predicate IdBefore(a: string, b: string) {
    b != "" && (a == "" || a[0] < b[0] || (a[0] == b[0] && IdBefore(a[1..], b[1..])))
  }

  predicate MoreUrgent(a: Component, b: Component) {
    || Severity(a.status) > Severity(b.status)
    || (Severity(a.status) == Severity(b.status) && IdBefore(a.id, b.id))
  }

  function Insert(c: Component, list: seq<Component>): (longer: seq<Component>)
    ensures |longer| == |list| + 1
  {
    if list == [] || MoreUrgent(c, list[0]) then [c] + list else [list[0]] + Insert(c, list[1..])
  }

  function Incidents(components: seq<Component>): seq<Component> {
    if components == [] then []
    else
      var last := components[|components| - 1];
      var others := Incidents(components[..|components| - 1]);
      if last.status.Healthy? then others else Insert(last, others)
  }

  function CountUnknown(components: seq<Component>): nat {
    if components == [] then 0
    else (if components[0].status.Unknown? then 1 else 0) + CountUnknown(components[1..])
  }

  predicate MostUrgentFirst(list: seq<Component>) {
    forall i, j :: 0 <= i < j < |list| ==> Severity(list[i].status) >= Severity(list[j].status)
  }

  lemma {:induction false} InsertAddsOne(c: Component, list: seq<Component>)
    ensures multiset(Insert(c, list)) == multiset(list) + multiset{c}
  {
    if list != [] && !MoreUrgent(c, list[0]) {
      InsertAddsOne(c, list[1..]);
      assert list == [list[0]] + list[1..];
    }
  }

  lemma {:induction false} InsertKeepsOrder(c: Component, list: seq<Component>)
    requires MostUrgentFirst(list)
    ensures MostUrgentFirst(Insert(c, list))
    ensures Severity(Insert(c, list)[0].status) == 
              Severity(Worse(c.status, if list == [] then c.status else list[0].status))
  {
    if list != [] && !MoreUrgent(c, list[0]) { InsertKeepsOrder(c, list[1..]); }
  }

  /** The incidents are exactly the components that are not healthy, the most severe first. */
  lemma {:induction false} IncidentsAreTheUnhealthy(components: seq<Component>)
    ensures MostUrgentFirst(Incidents(components))
    ensures forall c :: multiset(Incidents(components))[c] == (if c.status.Healthy? then 0 else multiset(components)[c])
  {
    if components != [] {
      var init, last := components[..|components| - 1], components[|components| - 1];
      IncidentsAreTheUnhealthy(init);
      assert components == init + [last];
      if !last.status.Healthy? {
        InsertKeepsOrder(last, Incidents(init));
        InsertAddsOne(last, Incidents(init));
      }
    }
  }

  lemma {:induction false} RollupIsTheWorst(components: seq<Component>)
    requires components != []
    ensures exists c :: c in components && c.status == Rollup(components)
    ensures forall c :: c in components ==> Severity(c.status) <= Severity(Rollup(components))
  {
    if |components| > 1 {
      RollupIsTheWorst(components[1..]);
      assert components == [components[0]] + components[1..];
      var c :| c in components[1..] && c.status == Rollup(components[1..]);
      assert components[0] in components && c in components;
    } else {
      assert components == [components[0]] && components[0] in components;
    }
  }

  // ---- deriving the rows ----

  function Transient(id: string, status: Status, reason: Reason, related: string, now: int, generation: int): Component
  {
    Component(id, status, reason, related, now, now, Some(generation), Fresh, None)
  }

  function Coverage(now: int, generation: int): Component {
    Transient("health-coverage", Unknown, NoObservations, "Host / sw-edge-01", now, generation)
      .(observedAt := 0, since := 0, freshness := Unavailable)
  }

  function Captured(snapshot: Option<seq<Component>>, control: Control, now: int): seq<Component> {
    var rows := if control.scenario.Empty? || snapshot.None? then [] else snapshot.value;
    if rows == [] then [Coverage(now, control.generation)] else rows
  }

  /** The first row with that id gets a new status and reason. */
  function Mark(rows: seq<Component>, id: string, status: Status, reason: Reason,
                related: Option<string>): seq<Component>
  {
    if rows == [] then []
    else if rows[0].id == id then
      [rows[0].(status := status, reason := reason,
                related := if related.Some? then related.value else rows[0].related)]
      + rows[1..]
    else [rows[0]] + Mark(rows[1..], id, status, reason, related)
  }

  function Marked(rows: seq<Component>, scenario: Scenario): seq<Component> {
    if scenario.Degraded? || scenario.ProviderDegraded? then Mark(rows, "telemetry", Impaired, TelemetryDegraded, None)
    else if scenario.MemberDown? then Mark(rows, "link", Impaired, BondMemberDown, Some("Port/bond-storage"))
    else if scenario.LacpMismatch? then Mark(rows, "link", Impaired, LacpInconsistent, Some("Port/bond-uplink"))
    else rows
  }

  predicate Historical(control: Control, failed: bool) {
    failed || ReadBlocked(control.scenario) || control.scenario.Stale?
  }

  predicate Outdated(row: Component, control: Control, now: int, failed: bool) {
    || Historical(control, failed)
    || now < row.observedAt
    || now - row.observedAt >= TTL_MS
    || row.generation != Some(control.generation)
  }

  function Aged(row: Component, control: Control, now: int, failed: bool): Component {
    if row.observedAt == 0 || !Outdated(row, control, now, failed) then row
    else
      row.(historical := Some(row.status), status := Unknown,
           freshness := if Historical(control, failed) && !control.scenario.Stale? then Unavailable
                        else RowFreshness.Stale,
           reason := if row.generation != Some(control.generation) then OtherGeneration else Unconfirmed)
  }

  function AgedRows(rows: seq<Component>, control: Control, now: int, failed: bool): seq<Component> {
    seq(|rows|, i requires 0 <= i < |rows| => Aged(rows[i], control, now, failed))
  }

  function AccelerationStatus(record: Acc.Record, verdict: Acc.Verdict): Status {
    if verdict.Unknown? || record.provider.Unavailable? then Unknown
    else if record.provider.Partial? || verdict.MissingPrerequisites? then Impaired
    else Healthy
  }

  function AccelerationRow(observed: Acc.Record, s: Acc.Snapshot, control: Control, now: int, failed: bool): Component {
    var record := Acc.Project(observed, control.scenario);
    var scenario := if failed then Scenario.ProviderUnavailable else control.scenario;
    var verdict := Acc.Assess(record, now, control.generation, scenario);
    var freshness :=
      if failed || ReadBlocked(control.scenario) then Unavailable
      else if control.scenario.Stale? || now < s.capturedAt || now - s.capturedAt >= TTL_MS
        || s.generation != control.generation
      then RowFreshness.Stale else Fresh;
    Component(record.id + "-provider", AccelerationStatus(record, verdict), Acceleration(verdict), record.scope,
              s.capturedAt, now, Some(s.generation), freshness, None)
  }

  /** The row replaces the first one with its id, or is appended. */
  function Upsert(rows: seq<Component>, row: Component): seq<Component> {
    if rows == [] then [row]
    else if rows[0].id == row.id then [row] + rows[1..]
    else [rows[0]] + Upsert(rows[1..], row)
  }

  /** One provider row for each record, in the order of the records. */
  function ProviderRows(s: Acc.Snapshot, control: Control, now: int, failed: bool): (rows: seq<Component>)
    ensures |rows| == |s.records|
  {
    seq(|s.records|, k requires 0 <= k < |s.records| => AccelerationRow(s.records[k], s, control, now, failed))
  }

  function UpsertAll(rows: seq<Component>, providers: seq<Component>): seq<Component> {
    if providers == [] then rows
    else Upsert(UpsertAll(rows, providers[..|providers| - 1]), providers[|providers| - 1])
  }

  function FlowRow(flow: OF.FlowSnapshot, control: Control, now: int, failed: bool): Component {
    var unavailable := failed || ReadBlocked(control.scenario);
    var stale := control.scenario.Stale? || now < flow.observedAt || OF.Freshness(flow, now).Stale?;
    var partial := flow.providerDegraded || flow.truncation != [];
    var status := if unavailable || stale then Unknown else if partial then Impaired else Healthy;
    var reason := if unavailable then CollectionUnavailable else if stale then CollectionExpired
                  else if partial then CollectionPartial else CollectionComplete;
    Component("flow-collection", status, reason, "Bridge/" + flow.query.bridge, flow.observedAt, now, None,
              if unavailable then Unavailable else if stale then RowFreshness.Stale else Fresh, None)
  }

  function FindCapability(rows: seq<CapabilityRow>): (row: Option<CapabilityRow>)
    ensures row.Some? ==> row.value in rows && row.value.id == "protected"
    ensures row.None? ==> forall r :: r in rows ==> r.id != "protected"
  {
    if rows == [] then None else if rows[0].id == "protected" then Some(rows[0]) else FindCapability(rows[1..])
  }

  const NATIVE_ROW := "native-capability-provider"

  function NativeRow(native: CapabilityRow, now: int): Component {
    var status :=
      if !native.freshness.CapabilityFresh? || native.provider.Unavailable? then Unknown
      else if native.provider.Partial? then Impaired else Healthy;
    var freshness :=
      if native.freshness.CapabilityFresh? then Fresh
      else if native.freshness.CapabilityUnavailable? then Unavailable else RowFreshness.Stale;
    Component(NATIVE_ROW, status, Given(native.reason), native.scope, native.observedAt, now,
              native.generation, freshness, None)
  }

  predicate NeedsRecovery(status: ApplyState) {
    status in {ApplyState.OutcomeUnknown, ApplyState.RollbackConflict, ApplyState.Degraded, ApplyState.NeedsAttention}
  }

  function SafetyRow(control: Control, now: int): Component {
    var recovery, pending := NeedsRecovery(control.transaction), control.transaction.Countdown?;
    var review := control.scenario.Conflict? || control.scenario.ValidationBlocked?;
    var status := if recovery then RecoveryRequired
                  else if pending || review || control.scenario.Drift? then Impaired else Healthy;
    var reason := if recovery then RecoveryOpen else if pending then ConfirmationPending
                  else if control.scenario.Drift? then DriftOpen else if review then CandidateReview else NothingOpen;
    Transient("change-safety", status, reason, if control.job != "" then control.job else "Candidate workspace", now,
              control.generation)
  }

  function DiagnosticRow(signals: Signals, control: Control, now: int): Component {
    var status := if signals.reviewOnly then Healthy
                  else if signals.diagnostic.Failing? then Impaired
                  else if signals.diagnostic.Inconclusive? then Unknown else Healthy;
    var reason := if signals.reviewOnly then PreviewOnly
                  else if signals.diagnostic.NotStarted? then NoDiagnostic else DiagnosticState;
    Transient("diagnostic-job", status, reason, signals.diagnosticScope, now, control.generation)
  }

  function Accelerated(rows: seq<Component>, signals: Signals, control: Control, now: int): seq<Component> {
    if signals.acceleration.Some? then
      UpsertAll(rows, ProviderRows(signals.acceleration.value, control, now, signals.accelerationFailed))
    else rows
  }

  function FlowRows(signals: Signals, control: Control, now: int): seq<Component> {
    if signals.flow.Some? then [FlowRow(signals.flow.value, control, now, signals.flowFailed)] else []
  }

  function Native(signals: Signals): Option<CapabilityRow> {
    if signals.capability.Some? then FindCapability(signals.capability.value) else None
  }

  function NativeRows(signals: Signals, now: int): seq<Component> {
    if Native(signals).Some? then [NativeRow(Native(signals).value, now)] else []
  }

  /** The rows of every observing collector, before the two shared resources are added. */
  function Observed(snapshot: Option<seq<Component>>, control: Control, signals: Signals, now: int,
                    failed: bool): seq<Component>
  {
    Accelerated(AgedRows(Marked(Captured(snapshot, control, now), control.scenario), control, now, failed), signals,
                control, now)
    + FlowRows(signals, control, now) + NativeRows(signals, now)
  }

  function Rows(snapshot: Option<seq<Component>>, control: Control, signals: Signals, now: int,
                failed: bool): seq<Component>
  {
    Observed(snapshot, control, signals, now, failed)
    + [SafetyRow(control, now)] + [DiagnosticRow(signals, control, now)]
  }

  function Summary(components: seq<Component>): View {
    var incidents := Incidents(components);
    View(components, Rollup(components), if incidents != [] then incidents[0].reason else AllCurrent,
         CountUnknown(components), incidents)
  }

  function Derive(snapshot: Option<seq<Component>>, control: Control, signals: Signals, now: int, failed: bool): View {
    if control.scenario.PermissionDenied? then View([], Unknown, AccessDenied, 0, [])
    else Summary(Rows(snapshot, control, signals, now, failed))
  }

  /** The walk over the copied rows, which withdraws every outdated verdict in place. */
  method AgeInPlace(rows: seq<Component>, control: Control, now: int, failed: bool) returns (components: seq<Component>)
    ensures components == AgedRows(rows, control, now, failed)
  {
    components := rows;
    for k := 0 to |components|
      invariant |components| == |rows|
      invariant forall i :: 0 <= i < k ==> components[i] == Aged(rows[i], control, now, failed)
      invariant forall i :: k <= i < |rows| ==> components[i] == rows[i]
    {
      var row := components[k];
      if row.observedAt == 0 { continue; }
      if Outdated(row, control, now, failed) {
        components := components[k := Aged(row, control, now, failed)];
      }
    }
  }

  /** The walk over the acceleration records, each replacing or adding its provider row. */
  method AddAcceleration(rows: seq<Component>, signals: Signals, control: Control, now: int)
    returns (components: seq<Component>)
    ensures components == Accelerated(rows, signals, control, now)
  {
    components := rows;
    if signals.acceleration.None? { return; }
    var s := signals.acceleration.value;
    ghost var providers := ProviderRows(s, control, now, signals.accelerationFailed);
    for k := 0 to |s.records|
      invariant components == UpsertAll(rows, providers[..k])
    {
      components := Upsert(components, AccelerationRow(s.records[k], s, control, now, signals.accelerationFailed));
      assert providers[..k + 1][..k] == providers[..k];
    }
    assert providers[..|s.records|] == providers;
  }

  /** The derivation as it runs: the copied rows are changed in place, then the other collectors are added. */
  method DeriveHealth(snapshot: Option<seq<Component>>, control: Control, signals: Signals, now: int, failed: bool)
    returns (view: View)
    ensures view == Derive(snapshot, control, signals, now, failed)
  {
    if control.scenario.PermissionDenied? { return View([], Unknown, AccessDenied, 0, []); }
    var components := AgeInPlace(Marked(Captured(snapshot, control, now), control.scenario), control, now, failed);
    components := AddAcceleration(components, signals, control, now);
    components := components + FlowRows(signals, control, now);
    components := components + NativeRows(signals, now);
    components := components + [SafetyRow(control, now)];
    components := components + [DiagnosticRow(signals, control, now)];
    view := Summary(components);
  }

  // ---- fail-safe ----

  predicate Young(t: int, now: int) { 0 <= now - t < TTL_MS }

  /** Evidence that may carry a verdict: labelled fresh, observed less than 60 s ago and of this generation. */
  predicate Trustworthy(c: Component, control: Control, now: int) {
    && c.freshness.Fresh? && Young(c.observedAt, now)
    && (c.generation.Some? ==> c.generation.value == control.generation)
  }

  predicate FailSafe(c: Component, control: Control, now: int) {
    !c.status.Unknown? ==> Trustworthy(c, control, now)
  }

  /** The rule for one row; `honest` says whether the label taken over from the capability rows holds on this clock. */
  predicate Guarded(c: Component, control: Control, now: int, honest: bool) {
    !c.status.Unknown? ==> c.freshness.Fresh? && (honest || c.id != NATIVE_ROW ==> Trustworthy(c, control, now))
  }

  predicate AllGuarded(rows: seq<Component>, control: Control, now: int, honest: bool) {
    forall i :: 0 <= i < |rows| ==> Guarded(rows[i], control, now, honest)
  }

  /** Captured health rows: stamped with a real time, and fresh when captured. */
  predicate CapturedRows(snapshot: Option<seq<Component>>) {
    snapshot.Some? ==> forall i :: 0 <= i < |snapshot.value| ==>
      snapshot.value[i].observedAt > 0 && snapshot.value[i].freshness.Fresh?
  }

  /** Facts are no newer than their capture and of its generation. */
  predicate CapturedBy(r: Acc.Record, s: Acc.Snapshot) {
    forall f :: f in r.facts ==> f.observedAt <= s.capturedAt && f.generation == s.generation
  }

  /** The clock is not behind the capture, or the service or the generation withdraws the verdict anyway. */
  predicate ClockAdmits(s: Acc.Snapshot, control: Control, now: int, failed: bool) {
    || Historical(control, failed)
    || s.generation != control.generation
    || s.capturedAt <= now
  }

  predicate CapturedAcceleration(s: Acc.Snapshot, control: Control, now: int, failed: bool) {
    && (forall k :: 0 <= k < |s.records| ==> CapturedBy(s.records[k], s))
    && (|| ClockAdmits(s, control, now, failed)
        || forall k, f :: 0 <= k < |s.records| && f in s.records[k].facts ==> !Young(f.observedAt, now))
  }

  predicate CapturedInputs(snapshot: Option<seq<Component>>, control: Control, signals: Signals, now: int) {
    && CapturedRows(snapshot)
    && (signals.acceleration.Some? ==>
          CapturedAcceleration(signals.acceleration.value, control, now, signals.accelerationFailed))
  }

  /** A capability row that calls itself fresh on its own clock is also current on the clock of the health view. */
  predicate HonestCapability(row: CapabilityRow, control: Control, now: int) {
    row.freshness.CapabilityFresh? && !row.provider.Unavailable? ==>
      Young(row.observedAt, now) && (row.generation.Some? ==> row.generation.value == control.generation)
  }

  predicate HonestSignals(signals: Signals, control: Control, now: int) {
    Native(signals).Some? ==> HonestCapability(Native(signals).value, control, now)
  }

  lemma {:induction false} MarkKeepsEvidence(rows: seq<Component>, id: string, status: Status, reason: Reason,
                                             related: Option<string>)
    ensures |Mark(rows, id, status, reason, related)| == |rows|
    ensures forall i :: 0 <= i < |rows| ==>
      var marked := Mark(rows, id, status, reason, related)[i];
      && marked.observedAt == rows[i].observedAt && marked.generation == rows[i].generation
      && marked.freshness == rows[i].freshness && (rows[i].id != id ==> marked == rows[i])
  {
    if rows != [] && rows[0].id != id { MarkKeepsEvidence(rows[1..], id, status, reason, related); }
  }

  lemma CapturedRowsAreGuarded(snapshot: Option<seq<Component>>, control: Control, now: int, failed: bool, honest: bool)
    requires CapturedRows(snapshot)
    ensures AllGuarded(AgedRows(Marked(Captured(snapshot, control, now), control.scenario), control, now, failed),
                       control, now, honest)
  {
    var rows := Captured(snapshot, control, now);
    var marked := Marked(rows, control.scenario);
    MarkedKeepsEvidence(rows, control.scenario);
    forall i | 0 <= i < |marked| ensures FailSafe(Aged(marked[i], control, now, failed), control, now) {
      AgedRowIsFailSafe(rows[i], marked[i], control, now, failed);
    }
  }

  lemma MarkedKeepsEvidence(rows: seq<Component>, scenario: Scenario)
    ensures |Marked(rows, scenario)| == |rows|
    ensures forall i :: 0 <= i < |rows| ==>
      var marked := Marked(rows, scenario)[i];
      && marked.observedAt == rows[i].observedAt && marked.generation == rows[i].generation
      && marked.freshness == rows[i].freshness
      && (rows[i].id !in {"telemetry", "link"} ==> marked == rows[i])
  {
    MarkKeepsEvidence(rows, "telemetry", Impaired, TelemetryDegraded, None);
    MarkKeepsEvidence(rows, "link", Impaired, BondMemberDown, Some("Port/bond-storage"));
    MarkKeepsEvidence(rows, "link", Impaired, LacpInconsistent, Some("Port/bond-uplink"));
  }

  /** A row stamped with a real time is withdrawn unless current; the coverage row is Unknown from the start. */
  lemma AgedRowIsFailSafe(row: Component, marked: Component, control: Control, now: int, failed: bool)
    requires (row.observedAt > 0 && row.freshness.Fresh?) || row == Coverage(now, control.generation)
    requires marked.observedAt == row.observedAt && marked.freshness == row.freshness
    requires row.id !in {"telemetry", "link"} ==> marked == row
    ensures FailSafe(Aged(marked, control, now, failed), control, now)
  {
    assert "health-coverage"[0] != "telemetry"[0] && "health-coverage"[0] != "link"[0];
  }

  lemma ProjectionKeepsStamps(r: Acc.Record, scenario: Scenario, f: Acc.Observation)
    requires f in Acc.Project(r, scenario).facts
    ensures exists g :: g in r.facts && g.observedAt == f.observedAt && g.generation == f.generation
  {
    var facts := Acc.Project(r, scenario).facts;
    var i :| 0 <= i < |facts| && facts[i] == f;
    assert r.facts[i] in r.facts;
  }

  lemma AccelerationRowIsFailSafe(r: Acc.Record, s: Acc.Snapshot, control: Control, now: int, failed: bool)
    requires CapturedBy(r, s)
    requires ClockAdmits(s, control, now, failed) || forall f :: f in r.facts ==> !Young(f.observedAt, now)
    ensures FailSafe(AccelerationRow(r, s, control, now, failed), control, now)
  {
    var record := Acc.Project(r, control.scenario);
    var scenario := if failed then Scenario.ProviderUnavailable else control.scenario;
    if !Acc.Assess(record, now, control.generation, scenario).Unknown? {
      Acc.CertaintyNeedsAFreshFact(record, now, control.generation, scenario);
      var f :| f in record.facts && Acc.IsFresh(f, now, control.generation);
      ProjectionKeepsStamps(r, control.scenario, f);
    }
  }

  predicate StampedAt(r: Acc.Record, t: int, generation: int) {
    forall f :: f in r.facts ==> f.observedAt == t && f.generation == generation
  }

  /** A record whose only fact refuses support: the verdict stands while that fact is young. */
  lemma YoungRefusalIsAVerdict(s: Acc.Snapshot, t: int, control: Control, now: int)
    requires now < s.capturedAt && s.generation == control.generation && Young(t, now)
    requires !ReadBlocked(control.scenario) && !control.scenario.Stale?
    ensures exists r: Acc.Record ::
      StampedAt(r, t, s.generation) && !FailSafe(AccelerationRow(r, s, control, now, false), control, now)
  {
    var f := Acc.Observation("supported", Acc.Flag(false), "", t, s.generation, Acc.INSTANCE);
    var r := Acc.Record("dpdk", "", "", Acc.Available, [f], []);
    Acc.SignalsAreNotTelemetry();
    var record := Acc.Project(r, control.scenario);
    assert record.facts == [f];
    assert Acc.Find(record.facts, "supported") == Some(f);
    assert !FailSafe(AccelerationRow(r, s, control, now, false), control, now);
  }

  /**
   * Every record of a capture stamped `t` gives a fail-safe row exactly when the clock admits the capture or
   * the stamp is not young; so a capture stamped with its own time is safe on a clock that lags behind it.
   */
  lemma StampedCaptureIsFailSafeExactlyWhen(s: Acc.Snapshot, t: int, control: Control, now: int, failed: bool)
    requires t <= s.capturedAt
    ensures
      (forall r: Acc.Record :: StampedAt(r, t, s.generation) ==>
         FailSafe(AccelerationRow(r, s, control, now, failed), control, now))
      <==> ClockAdmits(s, control, now, failed) || !Young(t, now)
  {
    if ClockAdmits(s, control, now, failed) || !Young(t, now) {
      forall r: Acc.Record | StampedAt(r, t, s.generation)
        ensures FailSafe(AccelerationRow(r, s, control, now, failed), control, now)
      {
        AccelerationRowIsFailSafe(r, s, control, now, failed);
      }
    } else {
      YoungRefusalIsAVerdict(s, t, control, now);
    }
  }

  /** Records with facts of any age up to the capture give fail-safe rows exactly when the clock admits the capture. */
  lemma AccelerationIsFailSafeExactlyWhen(s: Acc.Snapshot, control: Control, now: int, failed: bool)
    ensures
      (forall r: Acc.Record :: CapturedBy(r, s) ==> FailSafe(AccelerationRow(r, s, control, now, failed), control, now))
      <==> ClockAdmits(s, control, now, failed)
  {
    if ClockAdmits(s, control, now, failed) {
      forall r: Acc.Record | CapturedBy(r, s)
        ensures FailSafe(AccelerationRow(r, s, control, now, failed), control, now)
      {
        AccelerationRowIsFailSafe(r, s, control, now, failed);
      }
    } else {
      StampedCaptureIsFailSafeExactlyWhen(s, now, control, now, failed);
      var r: Acc.Record :|
        StampedAt(r, now, s.generation) && !FailSafe(AccelerationRow(r, s, control, now, failed), control, now);
      assert CapturedBy(r, s);
    }
  }

  lemma {:induction false} UpsertIsGuarded(rows: seq<Component>, row: Component, control: Control, now: int,
                                           honest: bool)
    requires AllGuarded(rows, control, now, honest) && FailSafe(row, control, now)
    ensures AllGuarded(Upsert(rows, row), control, now, honest)
  {
    if rows != [] && rows[0].id != row.id { UpsertIsGuarded(rows[1..], row, control, now, honest); }
  }

  lemma {:induction false} ProvidersAreGuarded(rows: seq<Component>, providers: seq<Component>, control: Control,
                                               now: int, honest: bool)
    requires AllGuarded(rows, control, now, honest)
    requires forall k :: 0 <= k < |providers| ==> FailSafe(providers[k], control, now)
    ensures AllGuarded(UpsertAll(rows, providers), control, now, honest)
  {
    if providers != [] {
      var n := |providers| - 1;
      ProvidersAreGuarded(rows, providers[..n], control, now, honest);
      UpsertIsGuarded(UpsertAll(rows, providers[..n]), providers[n], control, now, honest);
    }
  }

  lemma ProviderRowsAreFailSafe(s: Acc.Snapshot, control: Control, now: int, failed: bool)
    requires CapturedAcceleration(s, control, now, failed)
    ensures forall k :: 0 <= k < |s.records| ==> FailSafe(ProviderRows(s, control, now, failed)[k], control, now)
  {
    forall k | 0 <= k < |s.records| ensures FailSafe(ProviderRows(s, control, now, failed)[k], control, now) {
      AccelerationRowIsFailSafe(s.records[k], s, control, now, failed);
    }
  }

  lemma FlowRowIsFailSafe(flow: OF.FlowSnapshot, control: Control, now: int, failed: bool)
    ensures FailSafe(FlowRow(flow, control, now, failed), control, now)
  {
  }

  /**
   * The capability row is Unknown unless labelled fresh, and fail-safe on this clock exactly when its label is honest.
   */
  lemma NativeRowIsFailSafeExactlyWhen(native: CapabilityRow, control: Control, now: int)
    ensures !NativeRow(native, now).freshness.Fresh? ==> NativeRow(native, now).status.Unknown?
    ensures FailSafe(NativeRow(native, now), control, now) <==> HonestCapability(native, control, now)
  {
  }

  /** Evidence that has just expired on this clock still carries a verdict if its row was labelled fresh on another. */
  lemma CapabilityRowCanOutliveItsEvidence(control: Control, now: int)
    ensures
      var expired := CapabilityRow("protected", CapabilityFresh, Acc.Available, now - TTL_MS, Some(control.generation),
                                   "", "");
      && NativeRow(expired, now).status.Healthy? && NativeRow(expired, now).freshness.Fresh?
      && !FailSafe(NativeRow(expired, now), control, now)
  {
  }

  lemma OtherCollectorsAreGuarded(signals: Signals, control: Control, now: int)
    ensures AllGuarded(FlowRows(signals, control, now), control, now, HonestSignals(signals, control, now))
    ensures AllGuarded(NativeRows(signals, now), control, now, HonestSignals(signals, control, now))
    ensures FailSafe(SafetyRow(control, now), control, now)
      && FailSafe(DiagnosticRow(signals, control, now), control, now)
  {
    if signals.flow.Some? { FlowRowIsFailSafe(signals.flow.value, control, now, signals.flowFailed); }
    if Native(signals).Some? { NativeRowIsFailSafeExactlyWhen(Native(signals).value, control, now); }
  }

  lemma AppendedRowsAreGuarded(a: seq<Component>, b: seq<Component>, control: Control, now: int, honest: bool)
    requires AllGuarded(a, control, now, honest) && AllGuarded(b, control, now, honest)
    ensures AllGuarded(a + b, control, now, honest)
  {
  }

  lemma RowsAreGuarded(snapshot: Option<seq<Component>>, control: Control, signals: Signals, now: int, failed: bool)
    requires CapturedInputs(snapshot, control, signals, now)
    ensures AllGuarded(Rows(snapshot, control, signals, now, failed), control, now,
                       HonestSignals(signals, control, now))
  {
    var honest := HonestSignals(signals, control, now);
    var aged := AgedRows(Marked(Captured(snapshot, control, now), control.scenario), control, now, failed);
    CapturedRowsAreGuarded(snapshot, control, now, failed, honest);
    if signals.acceleration.Some? {
      var s := signals.acceleration.value;
      ProviderRowsAreFailSafe(s, control, now, signals.accelerationFailed);
      ProvidersAreGuarded(aged, ProviderRows(s, control, now, signals.accelerationFailed), control, now, honest);
    }
    var rows := Accelerated(aged, signals, control, now);
    OtherCollectorsAreGuarded(signals, control, now);
    AppendedRowsAreGuarded(rows, FlowRows(signals, control, now), control, now, honest);
    AppendedRowsAreGuarded(rows + FlowRows(signals, control, now), NativeRows(signals, now), control, now, honest);
    var observed := Observed(snapshot, control, signals, now, failed);
    AppendedRowsAreGuarded(observed, [SafetyRow(control, now)], control, now, honest);
    AppendedRowsAreGuarded(observed + [SafetyRow(control, now)], [DiagnosticRow(signals, control, now)], control, now,
                           honest);
  }

  /** What a summary of any rows promises about its overall status. */
  predicate SummaryIsSound(view: View) {
    && (exists c :: c in view.components && c.status == view.overall)
    && (forall c :: c in view.components ==> Severity(c.status) <= Severity(view.overall))
    && (view.incidents != [] ==> view.overall == view.incidents[0].status)
    && (view.overall.Healthy? <==> view.incidents == [])
  }

  lemma SummariesAreSound(rows: seq<Component>)
    requires rows != []
    ensures SummaryIsSound(Summary(rows))
  {
    OverallIsTheFirstIncident(rows);
    RollupIsTheWorst(rows);
  }

  /**
   * Fail-safe health: a component without fresh evidence is Unknown, the overall status is the most
   * severe one and that of the first incident, and it is Healthy only on fresh evidence throughout.
   * Every verdict rests on evidence current for this clock; the capability row, labelled on another
   * clock, when its label is honest here.
   */
  lemma HealthIsFailSafe(snapshot: Option<seq<Component>>, control: Control, signals: Signals, now: int, failed: bool)
    requires CapturedInputs(snapshot, control, signals, now) && !control.scenario.PermissionDenied?
    ensures
      var view := Derive(snapshot, control, signals, now, failed);
      && SummaryIsSound(view)
      && (forall c :: c in view.components && !c.freshness.Fresh? ==> c.status.Unknown?)
      && (forall c :: c in view.components && !c.status.Unknown? &&
                      (HonestSignals(signals, control, now) || c.id != NATIVE_ROW) ==>
            Trustworthy(c, control, now))
      && (view.overall.Healthy? ==> forall c :: c in view.components ==> c.status.Healthy? && c.freshness.Fresh?)
  {
    var rows := Rows(snapshot, control, signals, now, failed);
    RowsAreGuarded(snapshot, control, signals, now, failed);
    SummariesAreSound(rows);
    GuardedMembers(rows, Rollup(rows), control, now, HonestSignals(signals, control, now));
  }

  lemma GuardedMembers(rows: seq<Component>, worst: Status, control: Control, now: int, honest: bool)
    requires AllGuarded(rows, control, now, honest)
    requires forall c :: c in rows ==> Severity(c.status) <= Severity(worst)
    ensures forall c :: c in rows && !c.freshness.Fresh? ==> c.status.Unknown?
    ensures forall c :: c in rows && !c.status.Unknown? && (honest || c.id != NATIVE_ROW) ==>
      Trustworthy(c, control, now)
    ensures worst.Healthy? ==> forall c :: c in rows ==> c.status.Healthy? && c.freshness.Fresh?
  {
  }

  lemma OverallIsTheFirstIncident(rows: seq<Component>)
    requires rows != []
    ensures Rollup(rows).Healthy? <==> Incidents(rows) == []
    ensures Incidents(rows) != [] ==> Incidents(rows)[0].status == Rollup(rows)
  {
    RollupIsTheWorst(rows);
    IncidentsAreTheUnhealthy(rows);
    var incidents := Incidents(rows);
    var worst :| worst in rows && worst.status == Rollup(rows);
    if incidents == [] {
      assert multiset(incidents)[worst] == 0 && multiset(rows)[worst] > 0;
    } else {
      var first := incidents[0];
      assert multiset(incidents)[first] > 0;
      assert first in multiset(rows) && !first.status.Healthy?;
      assert multiset(incidents)[worst] == multiset(rows)[worst] > 0;
      var k :| 0 <= k < |incidents| && incidents[k] == worst;
      SeverityIsInjective(first.status, worst.status);
    }
  }

  lemma SeverityIsInjective(a: Status, b: Status)
    ensures Severity(a) == Severity(b) ==> a == b
  {
  }

  /** An unresolved transaction is never hidden behind healthy observations. */
  lemma OpenRecoveryDominates(snapshot: Option<seq<Component>>, control: Control, signals: Signals, now: int,
                              failed: bool)
    requires !control.scenario.PermissionDenied? && NeedsRecovery(control.transaction)
    ensures Derive(snapshot, control, signals, now, failed).overall.RecoveryRequired?
  {
    RecoveryRowDominates(Observed(snapshot, control, signals, now, failed), SafetyRow(control, now),
                         DiagnosticRow(signals, control, now));
  }

  lemma RecoveryRowDominates(rows: seq<Component>, recovery: Component, last: Component)
    requires recovery.status.RecoveryRequired?
    ensures Rollup(rows + [recovery] + [last]).RecoveryRequired?
  {
    var all := rows + [recovery] + [last];
    RollupIsTheWorst(all);
    assert all[|rows|] == recovery && recovery in all;
    SeverityIsInjective(Rollup(all), RecoveryRequired);
  }
}
