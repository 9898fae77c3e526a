/** What the health view reports: which inputs make it healthy, and how each of them is shown. */
module HealthReport {
  import opened Strings
  import opened Vocabulary
  import opened Health
  import Acc = Acceleration
  import CC = ChangeControl

  // ---- the rows of the shared resources and collectors ----

  /** The view has a row with this id and status. */
  predicate Reports(view: View, id: string, status: Status) {
    exists i :: 0 <= i < |view.components| && view.components[i].id == id && view.components[i].status == status
  }

  lemma RowsAreReported(snapshot: Option<seq<Component>>, control: Control, signals: Signals, now: int, failed: bool)
    requires !control.scenario.PermissionDenied?
    ensures
      var view := Derive(snapshot, control, signals, now, failed);
      && Reports(view, "change-safety", SafetyRow(control, now).status)
      && Reports(view, "diagnostic-job", DiagnosticRow(signals, control, now).status)
      && (forall row :: row in FlowRows(signals, control, now) + NativeRows(signals, now) ==>
            Reports(view, row.id, row.status))
  {
    var view := Derive(snapshot, control, signals, now, failed);
    var n := |view.components|;
    assert view.components[n - 2] == SafetyRow(control, now)
      && view.components[n - 1] == DiagnosticRow(signals, control, now);
    var others := FlowRows(signals, control, now) + NativeRows(signals, now);
    forall row | row in others ensures Reports(view, row.id, row.status) {
      var i :| 0 <= i < |others| && others[i] == row;
      assert view.components[n - 2 - |others| + i] == row;
    }
  }

  /**
   * Every lock of the workspace is reported: a countdown as impaired and every other one as requiring recovery. An
   * unlocked workspace is impaired exactly under drift, a conflict or a blocked validation.
   */
  lemma LocksAreReported(snapshot: Option<seq<Component>>, control: Control, signals: Signals, now: int, failed: bool)
    requires !control.scenario.PermissionDenied?
    ensures Reports(Derive(snapshot, control, signals, now, failed), "change-safety",
                    if CC.Locked(control.transaction) then
                      if control.transaction.Countdown? then Impaired else RecoveryRequired
                    else if control.scenario in {Scenario.Drift, Scenario.Conflict, Scenario.ValidationBlocked}
                      then Impaired
                    else Healthy)
  {
    RowsAreReported(snapshot, control, signals, now, failed);
  }

  /** A diagnostic that failed impairs the system and an inconclusive one leaves it unknown, unless only reviewed. */
  lemma DiagnosticIsReported(snapshot: Option<seq<Component>>, control: Control, signals: Signals, now: int,
                             failed: bool)
    requires !control.scenario.PermissionDenied?
    ensures
      var view := Derive(snapshot, control, signals, now, failed);
      && (signals.reviewOnly ==> Reports(view, "diagnostic-job", Healthy))
      && (!signals.reviewOnly && signals.diagnostic.Failing? ==> Reports(view, "diagnostic-job", Impaired))
      && (!signals.reviewOnly && signals.diagnostic.Inconclusive? ==> Reports(view, "diagnostic-job", Unknown))
      && (signals.diagnostic in {NotStarted, Running, Complete} ==> Reports(view, "diagnostic-job", Healthy))
  {
    RowsAreReported(snapshot, control, signals, now, failed);
  }

  /** The collected flows can still be read, and are less than 30 s old. */
  predicate FlowsCurrent(signals: Signals, control: Control, now: int)
    requires signals.flow.Some?
  {
    && !signals.flowFailed && !ReadBlocked(control.scenario) && !control.scenario.Stale?
    && 0 <= now - signals.flow.value.observedAt < 30_000
  }

  predicate FlowsPartial(signals: Signals)
    requires signals.flow.Some?
  {
    signals.flow.value.providerDegraded || signals.flow.value.truncation != []
  }

  /** A collection is reported as unknown when not current, as impaired when partial, and otherwise as healthy. */
  lemma FlowsAreReported(snapshot: Option<seq<Component>>, control: Control, signals: Signals, now: int, failed: bool)
    requires !control.scenario.PermissionDenied? && signals.flow.Some?
    ensures Reports(Derive(snapshot, control, signals, now, failed), "flow-collection",
                    if !FlowsCurrent(signals, control, now) then Unknown
                    else if FlowsPartial(signals) then Impaired else Healthy)
  {
    RowsAreReported(snapshot, control, signals, now, failed);
    assert FlowRow(signals.flow.value, control, now, signals.flowFailed) in FlowRows(signals, control, now);
  }

  /** The native capability is healthy exactly while its own row is fresh and its provider complete. */
  lemma NativeIsReported(snapshot: Option<seq<Component>>, control: Control, signals: Signals, now: int, failed: bool)
    requires !control.scenario.PermissionDenied? && Native(signals).Some?
    ensures
      var native := Native(signals).value;
      Reports(Derive(snapshot, control, signals, now, failed), "native-capability-provider",
              if !native.freshness.CapabilityFresh? || native.provider.Unavailable? then Unknown
              else if native.provider.Partial? then Impaired else Healthy)
  {
    RowsAreReported(snapshot, control, signals, now, failed);
    assert NativeRow(Native(signals).value, now) in NativeRows(signals, now);
  }

  // ---- the captured rows ----

  /** The scenario marks the first row of the telemetry or of the link. */
  predicate IsMarked(rows: seq<Component>, i: nat, scenario: Scenario)
    requires i < |rows|
  {
    && (forall j :: 0 <= j < i ==> rows[j].id != rows[i].id)
    && match scenario
       case Degraded => rows[i].id == "telemetry"
       case ProviderDegraded => rows[i].id == "telemetry"
       case MemberDown => rows[i].id == "link"
       case LacpMismatch => rows[i].id == "link"
       case _ => false
  }

  lemma {:induction false} MarkAt(rows: seq<Component>, id: string, status: Status, reason: Reason,
                                  related: Option<string>, i: nat)
    requires i < |rows|
    ensures |Mark(rows, id, status, reason, related)| == |rows|
    ensures
      var marked := Mark(rows, id, status, reason, related)[i];
      if rows[i].id == id && forall j :: 0 <= j < i ==> rows[j].id != id then
        marked == rows[i].(status := status, reason := reason,
                           related := if related.Some? then related.value else rows[i].related)
      else marked == rows[i]
  {
    MarkKeepsEvidence(rows, id, status, reason, related);
    if i > 0 && rows[0].id != id {
      MarkAt(rows[1..], id, status, reason, related, i - 1);
      assert forall j :: 0 <= j < i - 1 ==> rows[1..][j] == rows[j + 1];
    }
  }

  lemma MarkedAt(rows: seq<Component>, scenario: Scenario, i: nat)
    requires i < |rows|
    ensures |Marked(rows, scenario)| == |rows|
    ensures
      var marked := Marked(rows, scenario)[i];
      && marked == rows[i].(status := marked.status, reason := marked.reason, related := marked.related)
      && marked.status == (if IsMarked(rows, i, scenario) then Impaired else rows[i].status)
      && (!IsMarked(rows, i, scenario) ==> marked == rows[i])
  {
    if scenario.Degraded? || scenario.ProviderDegraded? {
      MarkAt(rows, "telemetry", Impaired, TelemetryDegraded, None, i);
    } else if scenario.MemberDown? {
      MarkAt(rows, "link", Impaired, BondMemberDown, Some("Port/bond-storage"), i);
    } else if scenario.LacpMismatch? {
      MarkAt(rows, "link", Impaired, LacpInconsistent, Some("Port/bond-uplink"), i);
    }
  }

  /** Evidence that still stands: read without a block, of this generation and less than 60 s old. */
  predicate Stands(row: Component, control: Control, now: int, failed: bool) {
    && !failed && !ReadBlocked(control.scenario) && !control.scenario.Stale?
    && row.generation == Some(control.generation) && 0 <= now - row.observedAt < 60_000
  }

  /**
   * How a captured row is shown: with its own status, or impaired where the scenario marks it, while its evidence
   * stands; otherwise that status is historical, and the label says whether it is outdated or cannot be read.
   */
  predicate ShownAs(shown: Component, rows: seq<Component>, i: nat, control: Control, now: int, failed: bool)
    requires i < |rows|
  {
    var row := rows[i];
    var status := if IsMarked(rows, i, control.scenario) then Impaired else row.status;
    && shown.id == row.id && shown.observedAt == row.observedAt && shown.generation == row.generation
    && shown.since == row.since
    && if row.observedAt == 0 || Stands(row, control, now, failed) then
         shown.status == status && shown.freshness == row.freshness && shown.historical == row.historical
       else
         && shown.status.Unknown? && shown.historical == Some(status)
         && shown.freshness == (if !control.scenario.Stale? && (failed || ReadBlocked(control.scenario))
                                then Unavailable
                                else RowFreshness.Stale)
         && shown.reason == (if row.generation != Some(control.generation) then OtherGeneration else Unconfirmed)
  }

  lemma AgedIsShown(rows: seq<Component>, i: nat, control: Control, now: int, failed: bool)
    requires i < |rows|
    ensures
      var aged := AgedRows(Marked(rows, control.scenario), control, now, failed);
      |aged| == |rows| && ShownAs(aged[i], rows, i, control, now, failed)
  {
    MarkedAt(rows, control.scenario, i);
  }

  predicate ReplacedBy(id: string, records: seq<Acc.Record>) {
    exists k :: 0 <= k < |records| && records[k].id + "-provider" == id
  }

  lemma {:induction false} UpsertKeeps(rows: seq<Component>, row: Component, i: nat)
    requires i < |rows| && rows[i].id != row.id
    ensures i < |Upsert(rows, row)| && Upsert(rows, row)[i] == rows[i]
  {
    if rows[0].id != row.id && i > 0 { UpsertKeeps(rows[1..], row, i - 1); }
  }

  lemma {:induction false} ProvidersKeep(rows: seq<Component>, providers: seq<Component>, i: nat)
    requires i < |rows| && forall k :: 0 <= k < |providers| ==> providers[k].id != rows[i].id
    ensures i < |UpsertAll(rows, providers)| && UpsertAll(rows, providers)[i] == rows[i]
  {
    if providers != [] {
      var n := |providers| - 1;
      ProvidersKeep(rows, providers[..n], i);
      UpsertKeeps(UpsertAll(rows, providers[..n]), providers[n], i);
    }
  }

  lemma AcceleratedKeeps(rows: seq<Component>, signals: Signals, control: Control, now: int, i: nat)
    requires i < |rows|
    requires signals.acceleration.Some? ==> !ReplacedBy(rows[i].id, signals.acceleration.value.records)
    ensures
      var all := Accelerated(rows, signals, control, now);
      i < |all| && all[i] == rows[i]
  {
    if signals.acceleration.Some? {
      var s := signals.acceleration.value;
      var providers := ProviderRows(s, control, now, signals.accelerationFailed);
      forall k | 0 <= k < |providers| ensures providers[k].id != rows[i].id {
        assert providers[k].id == s.records[k].id + "-provider";
      }
      ProvidersKeep(rows, providers, i);
    }
  }

  /** The captured rows a view is made from; an empty capture shows nothing. */
  predicate HasCaptured(snapshot: Option<seq<Component>>, control: Control) {
    !control.scenario.Empty? && snapshot.Some? && snapshot.value != []
  }

  /** Every captured row keeps its place and is shown as its evidence allows, unless a provider row takes its place. */
  lemma CapturedRowsAreShown(snapshot: Option<seq<Component>>, control: Control, signals: Signals, now: int,
                             failed: bool, i: nat)
    requires !control.scenario.PermissionDenied? && HasCaptured(snapshot, control) && i < |snapshot.value|
    requires signals.acceleration.Some? ==> !ReplacedBy(snapshot.value[i].id, signals.acceleration.value.records)
    ensures
      var view := Derive(snapshot, control, signals, now, failed);
      i < |view.components| && ShownAs(view.components[i], snapshot.value, i, control, now, failed)
  {
    var rows := snapshot.value;
    var aged := AgedRows(Marked(rows, control.scenario), control, now, failed);
    AgedIsShown(rows, i, control, now, failed);
    AcceleratedKeeps(aged, signals, control, now, i);
    var accelerated := Accelerated(aged, signals, control, now);
    assert accelerated[i] == aged[i];
    assert Derive(snapshot, control, signals, now, failed).components[i] == accelerated[i];
  }

  /** Without captured rows the view says so first, and cannot be healthy. */
  lemma MissingCaptureIsShown(snapshot: Option<seq<Component>>, control: Control, signals: Signals, now: int,
                              failed: bool)
    requires !control.scenario.PermissionDenied? && !HasCaptured(snapshot, control)
    requires signals.acceleration.Some? ==> !ReplacedBy("health-coverage", signals.acceleration.value.records)
    ensures
      var view := Derive(snapshot, control, signals, now, failed);
      && |view.components| > 0 && view.components[0].id == "health-coverage"
      && view.components[0].status.Unknown? && view.components[0].freshness.Unavailable?
  {
    var rows := [Coverage(now, control.generation)];
    var aged := AgedRows(Marked(rows, control.scenario), control, now, failed);
    AgedIsShown(rows, 0, control, now, failed);
    assert "health-coverage"[0] != "telemetry"[0] && "health-coverage"[0] != "link"[0];
    AcceleratedKeeps(aged, signals, control, now, 0);
    var accelerated := Accelerated(aged, signals, control, now);
    assert accelerated[0] == aged[0];
    assert Derive(snapshot, control, signals, now, failed).components[0] == accelerated[0];
  }

  // ---- the acceleration records ----

  /** A record is healthy with a complete provider and a readiness verdict that names no missing prerequisite. */
  predicate RecordHealthy(r: Acc.Record, control: Control, now: int, failed: bool) {
    && !failed && !Acc.ServiceBlocked(control.scenario) && !Acc.DegradedIn(control.scenario) && r.provider.Available?
    && var verdict := Acc.Assess(r, now, control.generation, control.scenario);
    && !verdict.Unknown? && !verdict.MissingPrerequisites?
  }

  /**
   * The row of a record is healthy exactly then, unknown without a provider or a verdict, and impaired otherwise; its
   * label says whether the capture can be read and is less than 60 s old.
   */
  lemma RecordRowIsHealthyExactlyWhen(r: Acc.Record, s: Acc.Snapshot, control: Control, now: int, failed: bool)
    ensures
      var row := AccelerationRow(r, s, control, now, failed);
      var unread := failed || Acc.ServiceBlocked(control.scenario);
      var verdict := Acc.Assess(Acc.Project(r, control.scenario), now, control.generation, control.scenario);
      && (row.status.Healthy? <==> RecordHealthy(r, control, now, failed))
      && (row.status.Unknown? <==> unread || r.provider.Unavailable? || verdict.Unknown?)
      && (row.status.Impaired? <==> !row.status.Healthy? && !row.status.Unknown?)
      && (row.freshness.Unavailable? <==> unread)
      && (row.freshness.Fresh? <==> !unread && !control.scenario.Stale? && 0 <= now - s.capturedAt < 60_000
                                     && s.generation == control.generation)
      && row.id == r.id + "-provider" && row.observedAt == s.capturedAt && row.generation == Some(s.generation)
  {
  }

  lemma {:induction false} UpsertShows(rows: seq<Component>, row: Component)
    ensures row in Upsert(rows, row)
  {
    if rows != [] && rows[0].id != row.id { UpsertShows(rows[1..], row); }
  }

  lemma {:induction false} UpsertKeepsMember(rows: seq<Component>, row: Component, c: Component)
    requires c in rows && c.id != row.id
    ensures c in Upsert(rows, row)
  {
    if rows[0].id != row.id && c != rows[0] { UpsertKeepsMember(rows[1..], row, c); }
  }

  /** The record is the last one with its id. */
  predicate LastNamesake(records: seq<Acc.Record>, k: nat) {
    k < |records| && forall j :: k < j < |records| ==> records[j].id + "-provider" != records[k].id + "-provider"
  }

  lemma {:induction false} ProviderIsShown(rows: seq<Component>, providers: seq<Component>, k: nat)
    requires k < |providers| && forall j :: k < j < |providers| ==> providers[j].id != providers[k].id
    ensures providers[k] in UpsertAll(rows, providers)
  {
    var n := |providers| - 1;
    var before := UpsertAll(rows, providers[..n]);
    if k == n {
      UpsertShows(before, providers[n]);
    } else {
      ProviderIsShown(rows, providers[..n], k);
      UpsertKeepsMember(before, providers[n], providers[k]);
    }
  }

  lemma RecordIsInserted(rows: seq<Component>, s: Acc.Snapshot, control: Control, now: int, failed: bool, k: nat)
    requires LastNamesake(s.records, k)
    ensures ProviderRows(s, control, now, failed)[k] in UpsertAll(rows, ProviderRows(s, control, now, failed))
  {
    var providers := ProviderRows(s, control, now, failed);
    forall j | k < j < |providers| ensures providers[j].id != providers[k].id {
      assert providers[j].id == s.records[j].id + "-provider" && providers[k].id == s.records[k].id + "-provider";
    }
    ProviderIsShown(rows, providers, k);
  }

  /** Every record without a later namesake has its row in the view. */
  lemma RecordsAreShown(snapshot: Option<seq<Component>>, control: Control, signals: Signals, now: int, failed: bool,
                        k: nat)
    requires !control.scenario.PermissionDenied? && signals.acceleration.Some?
    requires LastNamesake(signals.acceleration.value.records, k)
    ensures ProviderRows(signals.acceleration.value, control, now, signals.accelerationFailed)[k]
              in Derive(snapshot, control, signals, now, failed).components
  {
    var s := signals.acceleration.value;
    var aged := AgedRows(Marked(Captured(snapshot, control, now), control.scenario), control, now, failed);
    RecordIsInserted(aged, s, control, now, signals.accelerationFailed, k);
    var row := ProviderRows(s, control, now, signals.accelerationFailed)[k];
    assert row in Accelerated(aged, signals, control, now);
    assert row in Observed(snapshot, control, signals, now, failed);
  }

  // ---- when the system is healthy ----

  predicate CapturedHealthy(rows: seq<Component>, i: nat, control: Control, now: int, failed: bool)
    requires i < |rows|
  {
    && rows[i].status.Healthy? && !IsMarked(rows, i, control.scenario)
    && (rows[i].observedAt == 0 || Stands(rows[i], control, now, failed))
  }

  /** Nothing is open in the workspace, and no diagnostic, collection or capability gives cause for concern. */
  predicate SharedHealthy(control: Control, signals: Signals, now: int) {
    && !CC.Locked(control.transaction)
    && control.scenario !in {Scenario.Drift, Scenario.Conflict, Scenario.ValidationBlocked}
    && (signals.reviewOnly || (!signals.diagnostic.Failing? && !signals.diagnostic.Inconclusive?))
    && (signals.flow.Some? ==> FlowsCurrent(signals, control, now) && !FlowsPartial(signals))
    && (Native(signals).Some? ==>
          Native(signals).value.freshness.CapabilityFresh? && Native(signals).value.provider.Available?)
  }

  lemma SharedRowsAreHealthyExactlyWhen(control: Control, signals: Signals, now: int)
    ensures SharedHealthy(control, signals, now) <==>
      && SafetyRow(control, now).status.Healthy? && DiagnosticRow(signals, control, now).status.Healthy?
      && AllHealthy(FlowRows(signals, control, now)) && AllHealthy(NativeRows(signals, now))
  {
    if signals.flow.Some? {
      assert FlowRows(signals, control, now)[0] == FlowRow(signals.flow.value, control, now, signals.flowFailed);
    }
    if Native(signals).Some? { assert NativeRows(signals, now)[0] == NativeRow(Native(signals).value, now); }
  }

  predicate AllHealthy(rows: seq<Component>) {
    forall i :: 0 <= i < |rows| ==> rows[i].status.Healthy?
  }

  lemma HealthyMeansAllHealthy(rows: seq<Component>)
    requires rows != []
    ensures Summary(rows).overall.Healthy? <==> AllHealthy(rows)
  {
    RollupIsTheWorst(rows);
    if AllHealthy(rows) {
      var c :| c in rows && c.status == Rollup(rows);
    } else {
      var i :| 0 <= i < |rows| && !rows[i].status.Healthy?;
      assert rows[i] in rows;
    }
  }

  lemma RowsHealthyExactlyWhen(observed: seq<Component>, flows: seq<Component>, natives: seq<Component>,
                               safety: Component, diagnostic: Component)
    ensures AllHealthy(observed + flows + natives + [safety] + [diagnostic]) <==>
      && AllHealthy(observed) && AllHealthy(flows) && AllHealthy(natives)
      && safety.status.Healthy? && diagnostic.status.Healthy?
  {
    var all := observed + flows + natives + [safety] + [diagnostic];
    var n := |observed| + |flows| + |natives|;
    if AllHealthy(all) {
      assert forall i :: 0 <= i < |observed| ==> observed[i] == all[i];
      assert forall i :: 0 <= i < |flows| ==> flows[i] == all[|observed| + i];
      assert forall i :: 0 <= i < |natives| ==> natives[i] == all[|observed| + |flows| + i];
      assert safety == all[n] && diagnostic == all[n + 1];
    }
  }

  lemma {:induction false} UpsertHealthy(rows: seq<Component>, row: Component)
    requires AllHealthy(rows) && row.status.Healthy?
    ensures AllHealthy(Upsert(rows, row))
  {
    if rows != [] && rows[0].id != row.id { UpsertHealthy(rows[1..], row); }
  }

  lemma {:induction false} ProvidersHealthy(rows: seq<Component>, providers: seq<Component>)
    requires AllHealthy(rows) && AllHealthy(providers)
    ensures AllHealthy(UpsertAll(rows, providers))
  {
    if providers != [] {
      var n := |providers| - 1;
      ProvidersHealthy(rows, providers[..n]);
      UpsertHealthy(UpsertAll(rows, providers[..n]), providers[n]);
    }
  }

  lemma ProviderRowsHealthyExactlyWhen(s: Acc.Snapshot, control: Control, now: int, failed: bool, k: nat)
    requires k < |s.records|
    ensures ProviderRows(s, control, now, failed)[k].status.Healthy?
      <==> RecordHealthy(s.records[k], control, now, failed)
  {
    RecordRowIsHealthyExactlyWhen(s.records[k], s, control, now, failed);
  }

  /** Every shown record is healthy. */
  predicate RecordsHealthy(control: Control, signals: Signals, now: int, k: nat) {
    signals.acceleration.Some? && LastNamesake(signals.acceleration.value.records, k) ==>
      RecordHealthy(signals.acceleration.value.records[k], control, now, signals.accelerationFailed)
  }

  /** Captured row `i`, unless a provider row takes its place, is healthy on evidence that stands. */
  predicate RowHealthy(snapshot: Option<seq<Component>>, control: Control, signals: Signals, now: int, failed: bool,
                       i: nat)
  {
    && HasCaptured(snapshot, control) && i < |snapshot.value|
    && (signals.acceleration.Some? ==> !ReplacedBy(snapshot.value[i].id, signals.acceleration.value.records))
    ==> CapturedHealthy(snapshot.value, i, control, now, failed)
  }

  lemma HealthyNeedsShared(snapshot: Option<seq<Component>>, control: Control, signals: Signals, now: int, failed: bool)
    requires Derive(snapshot, control, signals, now, failed).overall.Healthy?
    ensures AllHealthy(Derive(snapshot, control, signals, now, failed).components)
      && SharedHealthy(control, signals, now)
  {
    var view := Derive(snapshot, control, signals, now, failed);
    HealthyMeansAllHealthy(view.components);
    var aged := AgedRows(Marked(Captured(snapshot, control, now), control.scenario), control, now, failed);
    RowsHealthyExactlyWhen(Accelerated(aged, signals, control, now), FlowRows(signals, control, now),
                           NativeRows(signals, now), SafetyRow(control, now), DiagnosticRow(signals, control, now));
    SharedRowsAreHealthyExactlyWhen(control, signals, now);
  }

  lemma HealthyNeedsRecord(snapshot: Option<seq<Component>>, control: Control, signals: Signals, now: int,
                           failed: bool, k: nat)
    requires !control.scenario.PermissionDenied?
      && AllHealthy(Derive(snapshot, control, signals, now, failed).components)
    ensures RecordsHealthy(control, signals, now, k)
  {
    if signals.acceleration.Some? && LastNamesake(signals.acceleration.value.records, k) {
      RecordsAreShown(snapshot, control, signals, now, failed, k);
      ProviderRowsHealthyExactlyWhen(signals.acceleration.value, control, now, signals.accelerationFailed, k);
    }
  }

  lemma HealthyNeedsRow(snapshot: Option<seq<Component>>, control: Control, signals: Signals, now: int, failed: bool,
                        i: nat)
    requires !control.scenario.PermissionDenied?
      && AllHealthy(Derive(snapshot, control, signals, now, failed).components)
    ensures RowHealthy(snapshot, control, signals, now, failed, i)
  {
    if HasCaptured(snapshot, control) && i < |snapshot.value| &&
       (signals.acceleration.Some? ==> !ReplacedBy(snapshot.value[i].id, signals.acceleration.value.records))
    {
      CapturedRowsAreShown(snapshot, control, signals, now, failed, i);
      assert Derive(snapshot, control, signals, now, failed).components[i].status.Healthy?;
    }
  }

  /**
   * The system is reported as healthy only if nothing is open in the workspace, every shown record and captured row is
   * healthy on evidence that stands, and no diagnostic, collection or capability gives cause for concern.
   */
  lemma HealthyNeeds(snapshot: Option<seq<Component>>, control: Control, signals: Signals, now: int, failed: bool)
    requires Derive(snapshot, control, signals, now, failed).overall.Healthy?
    ensures SharedHealthy(control, signals, now)
    ensures forall k: nat :: RecordsHealthy(control, signals, now, k)
    ensures forall i: nat :: RowHealthy(snapshot, control, signals, now, failed, i)
    ensures (signals.acceleration.Some? ==> !ReplacedBy("health-coverage", signals.acceleration.value.records)) ==>
      HasCaptured(snapshot, control)
  {
    HealthyNeedsShared(snapshot, control, signals, now, failed);
    if !HasCaptured(snapshot, control) &&
       (signals.acceleration.Some? ==> !ReplacedBy("health-coverage", signals.acceleration.value.records))
    {
      MissingCaptureIsShown(snapshot, control, signals, now, failed);
    }
    forall k: nat ensures RecordsHealthy(control, signals, now, k) {
      HealthyNeedsRecord(snapshot, control, signals, now, failed, k);
    }
    forall i: nat ensures RowHealthy(snapshot, control, signals, now, failed, i) {
      HealthyNeedsRow(snapshot, control, signals, now, failed, i);
    }
  }

  /** Conversely it is reported as healthy if all of this holds of every captured row and every record. */
  lemma HealthySuffices(snapshot: Option<seq<Component>>, control: Control, signals: Signals, now: int, failed: bool)
    requires !control.scenario.PermissionDenied? && SharedHealthy(control, signals, now)
    requires HasCaptured(snapshot, control)
    requires forall i :: 0 <= i < |snapshot.value| ==> CapturedHealthy(snapshot.value, i, control, now, failed)
    requires signals.acceleration.Some? ==>
      forall k :: 0 <= k < |signals.acceleration.value.records| ==>
        RecordHealthy(signals.acceleration.value.records[k], control, now, signals.accelerationFailed)
    ensures Derive(snapshot, control, signals, now, failed).overall.Healthy?
  {
    var aged := AgedRows(Marked(snapshot.value, control.scenario), control, now, failed);
    CapturedStayHealthy(snapshot.value, control, now, failed);
    if signals.acceleration.Some? {
      var s := signals.acceleration.value;
      var providers := ProviderRows(s, control, now, signals.accelerationFailed);
      forall k | 0 <= k < |providers| ensures providers[k].status.Healthy? {
        ProviderRowsHealthyExactlyWhen(s, control, now, signals.accelerationFailed, k);
      }
      ProvidersHealthy(aged, providers);
    }
    SharedRowsAreHealthyExactlyWhen(control, signals, now);
    RowsHealthyExactlyWhen(Accelerated(aged, signals, control, now), FlowRows(signals, control, now),
                           NativeRows(signals, now), SafetyRow(control, now), DiagnosticRow(signals, control, now));
    HealthyMeansAllHealthy(Derive(snapshot, control, signals, now, failed).components);
  }

  lemma CapturedStayHealthy(rows: seq<Component>, control: Control, now: int, failed: bool)
    requires forall i :: 0 <= i < |rows| ==> CapturedHealthy(rows, i, control, now, failed)
    ensures AllHealthy(AgedRows(Marked(rows, control.scenario), control, now, failed))
  {
    MarkedKeepsEvidence(rows, control.scenario);
    var aged := AgedRows(Marked(rows, control.scenario), control, now, failed);
    forall i | 0 <= i < |aged| ensures aged[i].status.Healthy? {
      AgedIsShown(rows, i, control, now, failed);
      assert CapturedHealthy(rows, i, control, now, failed);
    }
  }

  // ---- the head of the view ----

  function Statuses(rows: seq<Component>): (statuses: seq<Status>)
    ensures |statuses| == |rows| && forall i :: 0 <= i < |rows| ==> statuses[i] == rows[i].status
  {
    seq(|rows|, i requires 0 <= i < |rows| => rows[i].status)
  }

  lemma {:induction false} UnknownIsCounted(rows: seq<Component>)
    ensures CountUnknown(rows) == multiset(Statuses(rows))[Unknown]
  {
    if rows != [] {
      UnknownIsCounted(rows[1..]);
      assert Statuses(rows) == [rows[0].status] + Statuses(rows[1..]);
    }
  }

  /** The head counts the unknown components and repeats the reason of the first incident; a denial hides everything. */
  lemma HeadOfTheView(snapshot: Option<seq<Component>>, control: Control, signals: Signals, now: int, failed: bool)
    ensures
      var view := Derive(snapshot, control, signals, now, failed);
      if control.scenario.PermissionDenied? then
        view.components == [] && view.overall.Unknown? && view.unknown == 0 && view.incidents == []
          && view.reason.AccessDenied?
      else
        && view.unknown == multiset(Statuses(view.components))[Unknown]
        && view.incidents == Incidents(view.components)
        && view.reason == (if view.incidents != [] then view.incidents[0].reason else AllCurrent)
  {
    UnknownIsCounted(Derive(snapshot, control, signals, now, failed).components);
  }
}
