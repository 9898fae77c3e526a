/** Acceleration readiness: a verdict from observations that age and lose their telemetry. */
module Acceleration {
  import opened Strings
  import opened Vocabulary

  datatype Value = Null | Flag(b: bool) | Count(n: int) | Text(text: string)

  datatype Observation = Observation(key: string, value: Value, note: string, observedAt: int, generation: int,
                                     instance: string)

  datatype ProviderState = Available | Partial | Unavailable

  datatype Record = Record(id: string, title: string, scope: string, provider: ProviderState, facts: seq<Observation>,
                           prerequisites: seq<string>)

  datatype Snapshot = Snapshot(id: string, capturedAt: int, generation: int, records: seq<Record>)

  const TTL_MS := 60_000
  const INSTANCE := "ovs-synthetic-01"

  datatype ObservationFreshness = GenerationMismatch | StaleFact | FreshFact

  function Freshness(fact: Observation, now: int, generation: int): ObservationFreshness {
    if fact.instance != INSTANCE || fact.generation != generation then GenerationMismatch
    else if now < fact.observedAt || now - fact.observedAt >= TTL_MS then StaleFact
    else FreshFact
  }

  predicate IsFresh(fact: Observation, now: int, generation: int) { Freshness(fact, now, generation).FreshFact? }

  predicate ServiceBlocked(scenario: Scenario) {
    scenario in {Scenario.PermissionDenied, Scenario.Loading, Scenario.Error, Scenario.NetworkLoss,
                 Scenario.ProviderUnavailable}
  }

  datatype Reason =
    | ProviderSilent | InventoryStale | SupportUnknown | EvidenceStale | PrerequisiteDisagrees | SignalsAgree
    | SignalsDisagree | FactsMissing | ReadyNotEnabled | Notes(notes: seq<string>)

  datatype Verdict =
    | Enabled(reason: Reason) | Ready(reason: Reason) | MissingPrerequisites(reason: Reason)
    | Unsupported(reason: Reason) | Unknown(reason: Reason)

  /** The first fact recorded under the key. */
  function Find(facts: seq<Observation>, key: string): (fact: Option<Observation>)
    ensures fact.Some? ==> fact.value in facts && fact.value.key == key
    ensures fact.None? ==> forall f :: f in facts ==> f.key != key
  {
    if facts == [] then None
    else if facts[0].key == key then Some(facts[0])
    else Find(facts[1..], key)
  }

  /** The value of a current fact; null when it is absent or not fresh. */
  function Current(r: Record, key: string, now: int, generation: int): Value {
    var fact := Find(r.facts, key);
    if fact.Some? && IsFresh(fact.value, now, generation) then fact.value.value else Null
  }

  predicate HasFresh(r: Record, key: string, now: int, generation: int) {
    var fact := Find(r.facts, key);
    fact.Some? && IsFresh(fact.value, now, generation)
  }

  function NoteOf(r: Record, key: string): string {
    var fact := Find(r.facts, key);
    if fact.Some? then fact.value.note else ""
  }

  function MissingNotes(r: Record, keys: seq<string>, now: int, generation: int): seq<string> {
    if keys == [] then []
    else
      (if Current(r, keys[0], now, generation) == Flag(false) then [NoteOf(r, keys[0])] else [])
      + MissingNotes(r, keys[1..], now, generation)
  }

  predicate RequiredFresh(r: Record, now: int, generation: int) {
    && HasFresh(r, "configured", now, generation) && HasFresh(r, "operational", now, generation)
    && forall key :: key in r.prerequisites ==> HasFresh(r, key, now, generation)
  }

  predicate PrerequisitesMet(r: Record, now: int, generation: int) {
    forall key :: key in r.prerequisites ==> Current(r, key, now, generation) == Flag(true)
  }

  /** The verdict on a supported capability whose required facts are all fresh. */
  function Readiness(configured: Value, operational: Value, met: bool, missing: seq<string>): Verdict {
    if configured == Flag(true) && operational == Flag(true) then
      if met then Enabled(SignalsAgree) else Unknown(PrerequisiteDisagrees)
    else if configured == Flag(true) || operational == Flag(true) then Unknown(SignalsDisagree)
    else if missing != [] then MissingPrerequisites(Notes(missing))
    else if !met || configured == Null || operational == Null then Unknown(FactsMissing)
    else Ready(ReadyNotEnabled)
  }

  function Assess(r: Record, now: int, generation: int, scenario: Scenario): Verdict {
    if ServiceBlocked(scenario) || r.provider.Unavailable? then Unknown(ProviderSilent)
    else if scenario.Stale? then Unknown(InventoryStale)
    else if Current(r, "supported", now, generation) == Flag(false) then Unsupported(Notes([NoteOf(r, "supported")]))
    else if Current(r, "supported", now, generation) != Flag(true) then Unknown(SupportUnknown)
    else if !RequiredFresh(r, now, generation) then Unknown(EvidenceStale)
    else
      Readiness(Current(r, "configured", now, generation), Current(r, "operational", now, generation),
                PrerequisitesMet(r, now, generation), MissingNotes(r, r.prerequisites, now, generation))
  }

  // ---- what each verdict requires ----

  /** A fact counts while it belongs to this instance and generation and is less than 60 s old. */
  lemma FactsCountExactlyWhen(f: Observation, now: int, generation: int)
    ensures IsFresh(f, now, generation) <==>
      f.instance == "ovs-synthetic-01" && f.generation == generation && 0 <= now - f.observedAt < 60_000
  {
  }

  lemma {:induction false} MissingAreNoted(r: Record, keys: seq<string>, now: int, generation: int)
    ensures MissingNotes(r, keys, now, generation) != [] <==>
      exists key :: key in keys && Current(r, key, now, generation) == Flag(false)
  {
    if keys != [] { MissingAreNoted(r, keys[1..], now, generation); }
  }

  /** The service and the provider answer, and the inventory is current. */
  predicate CanBeAssessed(r: Record, scenario: Scenario) {
    && scenario !in {Scenario.PermissionDenied, Scenario.Loading, Scenario.Error, Scenario.NetworkLoss,
                     Scenario.ProviderUnavailable, Scenario.Stale}
    && !r.provider.Unavailable?
  }

  /** Support is affirmed, and every fact the verdict needs is fresh. */
  predicate FullyObserved(r: Record, now: int, generation: int) {
    && Current(r, "supported", now, generation) == Flag(true)
    && forall key :: key in ["configured", "operational"] + r.prerequisites ==> HasFresh(r, key, now, generation)
  }

  lemma FullyObservedIsRequired(r: Record, now: int, generation: int)
    ensures FullyObserved(r, now, generation) <==>
      Current(r, "supported", now, generation) == Flag(true) && RequiredFresh(r, now, generation)
  {
    var keys := ["configured", "operational"] + r.prerequisites;
    assert keys[0] in keys && keys[1] in keys;
    assert forall key :: key in r.prerequisites ==> key in keys;
  }

  /**
   * Each certain verdict has exactly one meaning: unsupported by a fresh refusal; enabled when configuration, runtime
   * and every prerequisite agree; missing prerequisites when it is off and a prerequisite is refused; ready when it is
   * off and every prerequisite is met.
   */
  lemma VerdictsExactlyWhen(r: Record, now: int, generation: int, scenario: Scenario)
    ensures
      var verdict, assessable := Assess(r, now, generation, scenario), CanBeAssessed(r, scenario);
      var observed := assessable && FullyObserved(r, now, generation);
      var configured := Current(r, "configured", now, generation);
      var operational := Current(r, "operational", now, generation);
      var off := configured !in {Flag(true), Null} && operational !in {Flag(true), Null};
      var met := forall key :: key in r.prerequisites ==> Current(r, key, now, generation) == Flag(true);
      var refused := exists key :: key in r.prerequisites && Current(r, key, now, generation) == Flag(false);
      && (verdict.Unsupported? <==> assessable && Current(r, "supported", now, generation) == Flag(false))
      && (verdict.Enabled? <==> observed && configured == operational == Flag(true) && met)
      && (verdict.Ready? <==> observed && off && met)
      && (verdict.MissingPrerequisites? <==>
            observed && configured != Flag(true) && operational != Flag(true) && refused)
  {
    FullyObservedIsRequired(r, now, generation);
    MissingAreNoted(r, r.prerequisites, now, generation);
    VerdictsByEvidence(r, now, generation, scenario);
  }

  lemma VerdictsByEvidence(r: Record, now: int, generation: int, scenario: Scenario)
    ensures
      var verdict, assessable := Assess(r, now, generation, scenario), CanBeAssessed(r, scenario);
      var supported := Current(r, "supported", now, generation);
      var observed := assessable && supported == Flag(true) && RequiredFresh(r, now, generation);
      var configured := Current(r, "configured", now, generation);
      var operational := Current(r, "operational", now, generation);
      var missing, met := MissingNotes(r, r.prerequisites, now, generation), PrerequisitesMet(r, now, generation);
      && (verdict.Unsupported? <==> assessable && supported == Flag(false))
      && (verdict.Enabled? <==> observed && configured == operational == Flag(true) && met)
      && (verdict.Ready? <==> observed && configured !in {Flag(true), Null} && operational !in {Flag(true), Null} && met
                               && missing == [])
      && (verdict.MissingPrerequisites? <==>
            observed && configured != Flag(true) && operational != Flag(true) && missing != [])
  {
  }

  // ---- aging only loses certainty ----

  /** The same facts seen later or partly invalidated: whatever is still fresh was fresh before. */
  predicate Aged(r: Record, now: int, older: Record, later: int, generation: int) {
    && older.provider == r.provider && older.prerequisites == r.prerequisites && |older.facts| == |r.facts|
    && forall i :: 0 <= i < |r.facts| ==>
        && older.facts[i].key == r.facts[i].key && older.facts[i].value == r.facts[i].value
        && older.facts[i].note == r.facts[i].note
        && (IsFresh(older.facts[i], later, generation) ==> IsFresh(r.facts[i], now, generation))
  }

  lemma {:induction false} AgedFind(a: seq<Observation>, now: int, b: seq<Observation>, later: int, generation: int,
                                    key: string)
    requires |a| == |b|
    requires forall i :: 0 <= i < |a| ==>
      && b[i].key == a[i].key && b[i].value == a[i].value && b[i].note == a[i].note
      && (IsFresh(b[i], later, generation) ==> IsFresh(a[i], now, generation))
    ensures Find(a, key).Some? <==> Find(b, key).Some?
    ensures Find(a, key).Some? ==>
      && Find(b, key).value.value == Find(a, key).value.value && Find(b, key).value.note == Find(a, key).value.note
      && (IsFresh(Find(b, key).value, later, generation) ==> IsFresh(Find(a, key).value, now, generation))
  {
    if a != [] && a[0].key != key { AgedFind(a[1..], now, b[1..], later, generation, key); }
  }

  lemma AgedKey(r: Record, now: int, older: Record, later: int, generation: int, key: string)
    requires Aged(r, now, older, later, generation)
    ensures HasFresh(older, key, later, generation) ==>
      HasFresh(r, key, now, generation) && Current(older, key, later, generation) == Current(r, key, now, generation)
    ensures NoteOf(older, key) == NoteOf(r, key)
    ensures !HasFresh(older, key, later, generation) ==> Current(older, key, later, generation) == Null
  {
    AgedFind(r.facts, now, older.facts, later, generation, key);
  }

  lemma {:induction false} SameMissingNotes(a: Record, now: int, b: Record, later: int, generation: int,
                                            keys: seq<string>)
    requires forall key :: key in keys ==>
      Current(a, key, now, generation) == Current(b, key, later, generation) && NoteOf(a, key) == NoteOf(b, key)
    ensures MissingNotes(a, keys, now, generation) == MissingNotes(b, keys, later, generation)
  {
    if keys != [] { SameMissingNotes(a, now, b, later, generation, keys[1..]); }
  }

  predicate SameKey(a: Record, now: int, b: Record, later: int, generation: int, key: string) {
    && (HasFresh(a, key, now, generation) <==> HasFresh(b, key, later, generation))
    && Current(a, key, now, generation) == Current(b, key, later, generation)
    && NoteOf(a, key) == NoteOf(b, key)
  }

  predicate SameEvidence(a: Record, now: int, b: Record, later: int, generation: int) {
    && a.prerequisites == b.prerequisites && (a.provider.Unavailable? <==> b.provider.Unavailable?)
    && SameKey(a, now, b, later, generation, "supported")
    && SameKey(a, now, b, later, generation, "configured")
    && SameKey(a, now, b, later, generation, "operational")
    && forall key :: key in a.prerequisites ==> SameKey(a, now, b, later, generation, key)
  }

  lemma SamePrerequisites(a: Record, now: int, b: Record, later: int, generation: int)
    requires SameEvidence(a, now, b, later, generation)
    ensures RequiredFresh(a, now, generation) == RequiredFresh(b, later, generation)
    ensures PrerequisitesMet(a, now, generation) == PrerequisitesMet(b, later, generation)
    ensures MissingNotes(a, a.prerequisites, now, generation) == MissingNotes(b, b.prerequisites, later, generation)
  {
    SameMissingNotes(a, now, b, later, generation, a.prerequisites);
  }

  /** The verdict depends on the service, on whether the provider is silent and on the named evidence only. */
  lemma SameEvidenceSameVerdict(a: Record, now: int, b: Record, later: int, generation: int, scenario: Scenario)
    requires SameEvidence(a, now, b, later, generation)
    ensures Assess(a, now, generation, scenario) == Assess(b, later, generation, scenario)
  {
    SamePrerequisites(a, now, b, later, generation);
  }

  /** Aging any part of the evidence leaves the verdict as it was or turns it to Unknown. */
  lemma AgingOnlyLosesCertainty(r: Record, now: int, older: Record, later: int, generation: int, scenario: Scenario)
    requires Aged(r, now, older, later, generation)
    ensures
      var before, after := Assess(r, now, generation, scenario), Assess(older, later, generation, scenario);
      after == before || after.Unknown?
  {
    AgedKey(r, now, older, later, generation, "supported");
    AgedKey(r, now, older, later, generation, "configured");
    AgedKey(r, now, older, later, generation, "operational");
    forall key | key in r.prerequisites ensures
      && (HasFresh(older, key, later, generation) ==> SameKey(r, now, older, later, generation, key))
    {
      AgedKey(r, now, older, later, generation, key);
    }
    if HasFresh(older, "supported", later, generation) && RequiredFresh(older, later, generation) {
      SameEvidenceSameVerdict(r, now, older, later, generation, scenario);
    } else {
      UnfreshSupportIsUnknown(r, now, older, later, generation, scenario);
    }
  }

  lemma UnfreshSupportIsUnknown(r: Record, now: int, older: Record, later: int, generation: int, scenario: Scenario)
    requires Aged(r, now, older, later, generation)
    requires !HasFresh(older, "supported", later, generation) || !RequiredFresh(older, later, generation)
    ensures
      var before, after := Assess(r, now, generation, scenario), Assess(older, later, generation, scenario);
      after == before || after.Unknown?
  {
    AgedKey(r, now, older, later, generation, "supported");
  }

  predicate OnlyLosesCertainty(r: Record, now: int, later: int, generation: int, scenario: Scenario) {
    var before, after := Assess(r, now, generation, scenario), Assess(r, later, generation, scenario);
    after == before || after.Unknown?
  }

  /** A fact observed at `t` lies in the future now and is young enough to count later. */
  predicate Surfaces(t: int, now: int, later: int) { now < t <= later < t + TTL_MS }

  /** Advancing the clock is such an aging, as long as no fact surfaces meanwhile. */
  lemma WaitingOnlyLosesCertainty(r: Record, now: int, later: int, generation: int, scenario: Scenario)
    requires now <= later && forall f :: f in r.facts ==> !Surfaces(f.observedAt, now, later)
    ensures OnlyLosesCertainty(r, now, later, generation, scenario)
  {
    forall i | 0 <= i < |r.facts| && IsFresh(r.facts[i], later, generation)
      ensures IsFresh(r.facts[i], now, generation)
    {
      assert !Surfaces(r.facts[i].observedAt, now, later);
    }
    AgingOnlyLosesCertainty(r, now, r, later, generation, scenario);
  }

  /** Without that, waiting creates certainty at every time at which a fact can surface. */
  lemma FutureFactsGainCertainty(t: int, now: int, later: int, generation: int)
    requires Surfaces(t, now, later)
    ensures exists r: Record ::
      && (forall f :: f in r.facts ==> f.observedAt == t)
      && Assess(r, now, generation, Normal).Unknown? && Assess(r, later, generation, Normal).Unsupported?
  {
    var f := Observation("supported", Flag(false), "", t, generation, INSTANCE);
    var r := Record("dpdk", "", "", Available, [f], []);
    assert Find(r.facts, "supported") == Some(f);
    assert Assess(r, now, generation, Normal).Unknown? && Assess(r, later, generation, Normal).Unsupported?;
  }

  predicate ObservedWithin(r: Record, times: iset<int>) { forall f :: f in r.facts ==> f.observedAt in times }

  /** Waiting can only lose certainty on all records observed at the given times exactly when none of them surfaces. */
  lemma WaitingIsSafeExactlyWhen(times: iset<int>, now: int, later: int, generation: int)
    requires now <= later
    ensures
      (forall r: Record, scenario: Scenario ::
         ObservedWithin(r, times) ==> OnlyLosesCertainty(r, now, later, generation, scenario))
      <==> (forall t :: t in times ==> !Surfaces(t, now, later))
  {
    if t :| t in times && Surfaces(t, now, later) {
      FutureFactsGainCertainty(t, now, later, generation);
      var r: Record :| (forall f :: f in r.facts ==> f.observedAt == t)
        && Assess(r, now, generation, Normal).Unknown? && Assess(r, later, generation, Normal).Unsupported?;
      assert ObservedWithin(r, times) && !OnlyLosesCertainty(r, now, later, generation, Normal);
    } else {
      forall r: Record, scenario: Scenario | ObservedWithin(r, times)
        ensures OnlyLosesCertainty(r, now, later, generation, scenario)
      {
        WaitingOnlyLosesCertainty(r, now, later, generation, scenario);
      }
    }
  }

  // ---- degraded telemetry ----

  const TELEMETRY := {"pmd-cycles", "rx-drops", "hw-flows", "sw-flows"}

  predicate DegradedIn(scenario: Scenario) { scenario.Degraded? || scenario.ProviderDegraded? }

  function Masked(facts: seq<Observation>): (masked: seq<Observation>)
    ensures |masked| == |facts|
  {
    seq(|facts|, i requires 0 <= i < |facts| =>
      if facts[i].key in TELEMETRY then
        facts[i].(value := Null, note := "Telemetry provider degraded; this counter is unavailable.")
      else facts[i])
  }

  function Project(r: Record, scenario: Scenario): Record {
    if !ServiceBlocked(scenario) && !DegradedIn(scenario) then r
    else
      r.(provider := if ServiceBlocked(scenario) || r.provider.Unavailable? then Unavailable else Partial,
         facts := if DegradedIn(scenario) then Masked(r.facts) else r.facts)
  }

  lemma {:induction false} MaskingKeepsOtherKeys(facts: seq<Observation>, key: string)
    requires key !in TELEMETRY
    ensures Find(Masked(facts), key) == Find(facts, key)
  {
    if facts != [] && facts[0].key != key {
      assert Masked(facts)[1..] == Masked(facts[1..]);
      MaskingKeepsOtherKeys(facts[1..], key);
    }
  }

  lemma SignalsAreNotTelemetry()
    ensures "supported" !in TELEMETRY && "configured" !in TELEMETRY && "operational" !in TELEMETRY
  {
    assert forall key :: key in TELEMETRY ==> key[0] in {'p', 'r', 'h', 's'} && |key| in {10, 8};
  }

  lemma ProjectionKeepsKey(r: Record, scenario: Scenario, now: int, generation: int, key: string)
    requires DegradedIn(scenario) && key !in TELEMETRY
    ensures SameKey(Project(r, scenario), now, r, now, generation, key)
  {
    MaskingKeepsOtherKeys(r.facts, key);
  }

  /**
   * A blocked service silences the provider; degradation marks it partial and empties exactly the telemetry counters.
   */
  lemma ProjectionExactlyMasks(r: Record, scenario: Scenario, i: nat)
    requires i < |r.facts|
    ensures
      var p := Project(r, scenario);
      var masked := scenario in {Scenario.Degraded, Scenario.ProviderDegraded} &&
                    r.facts[i].key in {"pmd-cycles", "rx-drops", "hw-flows", "sw-flows"};
      && p == r.(provider := p.provider, facts := p.facts) && |p.facts| == |r.facts|
      && p.provider == (if ServiceBlocked(scenario) || r.provider.Unavailable? then Unavailable
                        else if scenario in {Scenario.Degraded, Scenario.ProviderDegraded} then Partial else r.provider)
      && (if masked then p.facts[i] == r.facts[i].(value := Null, note := p.facts[i].note)
          else p.facts[i] == r.facts[i])
  {
  }

  /** Degraded telemetry never changes a verdict whose prerequisites are not telemetry. */
  lemma DegradationKeepsTheVerdict(r: Record, now: int, generation: int, scenario: Scenario)
    requires DegradedIn(scenario)
    requires forall key :: key in r.prerequisites ==> key !in TELEMETRY
    ensures Assess(Project(r, scenario), now, generation, scenario) == Assess(r, now, generation, scenario)
  {
    SignalsAreNotTelemetry();
    ProjectionKeepsKey(r, scenario, now, generation, "supported");
    ProjectionKeepsKey(r, scenario, now, generation, "configured");
    ProjectionKeepsKey(r, scenario, now, generation, "operational");
    forall key | key in r.prerequisites ensures SameKey(Project(r, scenario), now, r, now, generation, key) {
      ProjectionKeepsKey(r, scenario, now, generation, key);
    }
    SameEvidenceSameVerdict(Project(r, scenario), now, r, now, generation, scenario);
  }

  /** A verdict other than Unknown rests on a fresh fact of the asked generation. */
  lemma CertaintyNeedsAFreshFact(r: Record, now: int, generation: int, scenario: Scenario)
    requires !Assess(r, now, generation, scenario).Unknown?
    ensures !ServiceBlocked(scenario) && !scenario.Stale? && !r.provider.Unavailable?
    ensures exists f :: f in r.facts && IsFresh(f, now, generation)
  {
    var fact := Find(r.facts, "supported");
    assert fact.Some? && fact.value in r.facts;
  }
}
