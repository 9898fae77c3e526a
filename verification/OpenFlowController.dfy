/** The collection controller: two timers race each other, new scenarios and permission changes. */
module OpenFlowController {
  import opened Strings
  import opened Vocabulary
  import opened OpenFlow
  import opened OpenFlowQuery

  predicate ServiceBlocked(scenario: Scenario) {
    scenario in {Scenario.Loading, Scenario.Empty, Scenario.Error, Scenario.PermissionDenied,
                 Scenario.ProviderUnavailable, Scenario.NetworkLoss}
  }

  predicate Admitted(q: FlowQuery, scenario: Scenario, width: int, busy: bool) {
    width >= 768 && !busy && !ServiceBlocked(scenario) && ValidQuery(q)
  }

  // ---- collection ----

  datatype Failure = PermissionDenied | ProviderUnavailable | QueryTimeout
  datatype Collected = Collected(snapshot: Option<FlowSnapshot>, failure: Option<Failure>)

  type HostRows = rows: seq<FlowRow> | |rows| <= MAX_ARRAY_LENGTH

  /** What the host supplies when a timer fires: the scenario, the window, the clock and the matching rows. */
  datatype Moment = Moment(scenario: Scenario, width: int, now: Instant, matched: HostRows)

  predicate DegradedIn(scenario: Scenario) { scenario in {Scenario.Degraded, Scenario.ProviderDegraded} }

  function Unbounded(q: FlowQuery, reviewCase: ReviewCase, elapsed: int, matched: HostRows, m: Moment): FlowSnapshot {
    var degraded := DegradedIn(m.scenario);
    var observedAt := m.now - (if reviewCase.StaleCase? then STALE_CASE_MS else 0);
    var flags := if |matched| > ROW_LIMIT then [RowLimit] else [];
    FlowSnapshot(q, observedAt, elapsed, Prefix(matched, ROW_LIMIT), |matched|, flags, degraded, reviewCase,
                 MetadataBytes(q, m.now, observedAt, elapsed, |matched|, degraded, reviewCase))
  }

  /** Bounding the snapshot again at its capture time leaves it alone. */
  ghost predicate FixedPoint(s: FlowSnapshot) { Bounded(s, CapturedAt(s), s) }

  lemma BoundedCollection(input: FlowSnapshot)
    requires input.fixedBytes <= METADATA_LIMIT && |input.truncation| <= 2
    ensures
      var result := Bound(input, CapturedAt(input));
      && result.query == input.query && result.elapsedMs == input.elapsedMs
      && CapturedAt(result) == CapturedAt(input) && FixedPoint(result) && Fits(result, CapturedAt(result))
  {
    var result := Bound(input, CapturedAt(input));
    BoundingIsIdempotent(input, CapturedAt(input), result);
    ResultIsAPrefix(input, CapturedAt(input), result);
    SmallMetadataFits(input, CapturedAt(input), result);
  }

  lemma CapturesAreSmall(q: FlowQuery, reviewCase: ReviewCase, started: Instant, matched: HostRows, m: Moment)
    requires ValidQuery(q)
    ensures
      var input := Unbounded(q, reviewCase, m.now - started, matched, m);
      && input.query == q && input.elapsedMs == m.now - started && CapturedAt(input) == m.now
      && input.fixedBytes <= METADATA_LIMIT && |input.truncation| <= 2
  {
    var observed := m.now - (if reviewCase.StaleCase? then STALE_CASE_MS else 0);
    MetadataIsShort(q, m.now, observed, m.now - started, |matched|, DegradedIn(m.scenario), reviewCase);
  }

  /** The rows of a snapshot taken at `now` are the longest fitting prefix of the first 500 that matched. */
  predicate ShowsRows(s: FlowSnapshot, matched: seq<FlowRow>, now: int) {
    var first := if |matched| <= 500 then matched else matched[..500];
    && s.matchedRows == |matched| && s.rows <= first
    && (RowLimit in s.truncation <==> |matched| > 500)
    && (ByteLimit !in s.truncation ==> s.rows == first)
    && (ByteLimit in s.truncation ==>
          forall k :: |s.rows| < k <= |first| ==> OutputBytes(s.(rows := first[..k]), now) > 262_144 - 1024)
  }

  /** The snapshot says of itself how it was taken. */
  predicate Describes(s: FlowSnapshot, q: FlowQuery, reviewCase: ReviewCase, started: Instant, m: Moment) {
    && s.query == q && s.reviewCase == reviewCase && s.elapsedMs == m.now - started
    && s.observedAt == m.now - (if reviewCase.StaleCase? then 45_000 else 0)
    && s.providerDegraded == (m.scenario in {Scenario.Degraded, Scenario.ProviderDegraded})
  }

  lemma BoundShows(matched: HostRows, now: int, input: FlowSnapshot, result: FlowSnapshot)
    requires input.matchedRows == |matched| && ByteLimit !in input.truncation
    requires FirstRows(input) == input && (RowLimit in input.truncation <==> |matched| > 500)
    requires input.rows == (if |matched| <= 500 then matched else matched[..500])
    requires Bounded(input, now, result)
    ensures ShowsRows(result, matched, now)
  {
    ResultIsAPrefix(input, now, result);
    LongestPrefixIsKept(input, now, result);
  }

  function Capture(q: FlowQuery, reviewCase: ReviewCase, started: Instant, matched: HostRows,
                   m: Moment): (s: FlowSnapshot)
    requires ValidQuery(q)
    ensures s.query == q && s.elapsedMs == m.now - started && CapturedAt(s) == m.now
    ensures FixedPoint(s) && Fits(s, m.now)
    ensures Describes(s, q, reviewCase, started, m) && ShowsRows(s, matched, m.now)
  {
    var input := Unbounded(q, reviewCase, m.now - started, matched, m);
    CapturesAreSmall(q, reviewCase, started, matched, m);
    BoundedCollection(input);
    ResultIsAPrefix(input, m.now, Bound(input, m.now));
    BoundShows(matched, m.now, input, Bound(input, m.now));
    Bound(input, m.now)
  }

  /** Either a failure and no snapshot, or a timely bounded snapshot of exactly this query that fits its budget. */
  function Collection(q: FlowQuery, reviewCase: ReviewCase, started: Instant, m: Moment): (r: Collected)
    requires ValidQuery(q)
    ensures r.snapshot.None? <==> r.failure.Some?
    ensures r.snapshot.Some? ==>
      && r.snapshot.value.query == q && r.snapshot.value.elapsedMs < TIMEOUT_MS
      && CapturedAt(r.snapshot.value) == m.now && FixedPoint(r.snapshot.value) && Fits(r.snapshot.value, m.now)
      && Describes(r.snapshot.value, q, reviewCase, started, m)
      && ShowsRows(r.snapshot.value, if reviewCase.EmptyCase? then [] else m.matched, m.now)
  {
    var elapsed := m.now - started;
    if reviewCase.PermissionDeniedCase? then Collected(None, Some(Failure.PermissionDenied))
    else if !SourceOf(q.bridge).value.available || reviewCase.ProviderUnavailableCase? then
      Collected(None, Some(Failure.ProviderUnavailable))
    else if reviewCase.QueryTimeoutCase? || elapsed >= TIMEOUT_MS then Collected(None, Some(QueryTimeout))
    else Collected(Some(Capture(q, reviewCase, started, if reviewCase.EmptyCase? then [] else m.matched, m)), None)
  }

  // ---- the state of the hook and of the host's timer queue ----

  datatype View = View(draft: FlowQuery, snapshot: Option<FlowSnapshot>, reviewCase: ReviewCase,
                       failure: Option<Failure>, busy: bool, page: int, selectedId: Option<string>)

  /** A scheduled `complete`, with everything its closure captured. */
  datatype Timer = Timer(token: nat, timeout: bool, started: Instant, captured: FlowQuery, reviewCase: ReviewCase)

  datatype State = State(view: View, generation: nat, timers: seq<nat>, pending: map<nat, Timer>, nextTimer: nat)

  const DEFAULT_QUERY := FlowQuery("br-fabric", "all", "", "", "", "", "")
  const INITIAL := State(View(DEFAULT_QUERY, None, FreshCase, None, false, 1, None), 0, [], map[], 0)

  function Cleared(s: State): State {
    s.(pending := s.pending - (set id | id in s.timers), timers := [])
  }

  /** The effect of a rendered scenario. */
  function AfterScenario(s: State, scenario: Scenario): State {
    if !ServiceBlocked(scenario) then s
    else
      var stopped := Cleared(s.(generation := s.generation + 1)).(view := s.view.(busy := false));
      if scenario.PermissionDenied? then
        stopped.(view := stopped.view.(snapshot := None, failure := Some(Failure.PermissionDenied),
                                       selectedId := None, page := 1))
      else stopped
  }

  function AfterCollect(s: State, q: FlowQuery, reviewCase: ReviewCase, scenario: Scenario, width: int,
                        now: Instant): State
  {
    if !Admitted(q, scenario, width, s.view.busy) then s
    else
      var token := s.generation + 1;
      var id := s.nextTimer;
      s.(generation := token,
         view := s.view.(busy := true, reviewCase := reviewCase, failure := None),
         timers := [id, id + 1],
         pending := s.pending[id := Timer(token, false, now, q, reviewCase)]
                             [id + 1 := Timer(token, true, now, q, reviewCase)],
         nextTimer := id + 2)
  }

  predicate Permitted(m: Moment) { !ServiceBlocked(m.scenario) && m.width >= 768 }

  function AfterFire(s: State, id: nat, m: Moment): State
    requires id in s.pending && ValidQuery(s.pending[id].captured)
  {
    var t := s.pending[id];
    var fired := s.(pending := s.pending - {id});
    if t.token != s.generation then fired
    else
      var cleared := Cleared(fired);
      if !Permitted(m) then
        var idle := cleared.(view := s.view.(busy := false));
        if m.scenario.PermissionDenied? then
          idle.(view := idle.view.(snapshot := None, failure := Some(Failure.PermissionDenied)))
        else idle
      else
        var result := Collection(t.captured, if t.timeout then QueryTimeoutCase else t.reviewCase, t.started, m);
        cleared.(view := s.view.(snapshot := result.snapshot, failure := result.failure, busy := false, page := 1,
                                 selectedId := None))
  }

  function AfterDraft(s: State, draft: FlowQuery): State {
    if s.view.busy then s else s.(view := s.view.(draft := draft))
  }

  function RefreshQuery(s: State): FlowQuery {
    if s.view.snapshot.Some? then s.view.snapshot.value.query else s.view.draft
  }

  class FlowController {
    var view: View
    var generation: nat
    var timers: seq<nat>
    var pending: map<nat, Timer>
    var nextTimer: nat

    constructor ()
      ensures Now() == INITIAL
    {
      view := View(DEFAULT_QUERY, None, FreshCase, None, false, 1, None);
      generation, timers, pending, nextTimer := 0, [], map[], 0;
    }

    function Now(): State
      reads this
    {
      State(view, generation, timers, pending, nextTimer)
    }

    /** Cancels the host timers whose handles are held; a loop over `timers` in the source. */
    method ClearTimers()
      modifies this`timers, this`pending
      ensures Now() == Cleared(old(Now()))
    {
      ghost var before := pending;
      for k := 0 to |timers|
        invariant timers == old(timers) && pending == before - (set id | id in timers[..k])
      {
        pending := pending - {timers[k]};
        assert timers[..k + 1] == timers[..k] + [timers[k]];
      }
      assert timers[..|timers|] == timers;
      timers := [];
    }

    method ScenarioRendered(scenario: Scenario)
      modifies this
      ensures Now() == AfterScenario(old(Now()), scenario)
    {
      if ServiceBlocked(scenario) {
        generation := generation + 1;
        ClearTimers();
        view := view.(busy := false);
        if scenario.PermissionDenied? {
          view := view.(snapshot := None, failure := Some(Failure.PermissionDenied), selectedId := None, page := 1);
        }
      }
    }

    method SetTimeout(t: Timer) returns (id: nat)
      modifies this`pending, this`nextTimer
      ensures id == old(nextTimer) && nextTimer == id + 1 && pending == old(pending)[id := t]
    {
      id := nextTimer;
      pending := pending[id := t];
      nextTimer := nextTimer + 1;
    }

    method Collect(q: FlowQuery, reviewCase: ReviewCase, scenario: Scenario, width: int, now: Instant)
      returns (blocked: bool)
      modifies this
      ensures blocked <==> !Admitted(q, scenario, width, old(view.busy))
      ensures Now() == AfterCollect(old(Now()), q, reviewCase, scenario, width, now)
    {
      if !Admitted(q, scenario, width, view.busy) { return true; }
      generation := generation + 1;
      var token := generation;
      view := view.(busy := true, reviewCase := reviewCase, failure := None);
      var first := SetTimeout(Timer(token, false, now, q, reviewCase));
      var second := SetTimeout(Timer(token, true, now, q, reviewCase));
      timers := [first, second];
      blocked := false;
    }

    /** The host runs the scheduled `complete` of timer `id`. */
    method Fire(id: nat, m: Moment)
      requires id in pending && ValidQuery(pending[id].captured)
      modifies this
      ensures Now() == AfterFire(old(Now()), id, m)
    {
      var t := pending[id];
      pending := pending - {id};
      if t.token != generation { return; }
      ClearTimers();
      if !Permitted(m) {
        view := view.(busy := false);
        if m.scenario.PermissionDenied? {
          view := view.(snapshot := None, failure := Some(Failure.PermissionDenied));
        }
        return;
      }
      var result := Collection(t.captured, if t.timeout then QueryTimeoutCase else t.reviewCase, t.started, m);
      view := view.(snapshot := result.snapshot, failure := result.failure, busy := false, page := 1,
                    selectedId := None);
    }

    method SetDraft(draft: FlowQuery)
      modifies this`view
      ensures Now() == AfterDraft(old(Now()), draft)
    {
      if !view.busy { view := view.(draft := draft); }
    }

    method Refresh(scenario: Scenario, width: int, now: Instant) returns (blocked: bool)
      modifies this
      ensures Now() == AfterCollect(old(Now()), RefreshQuery(old(Now())), old(view.reviewCase), scenario, width, now)
    {
      blocked := Collect(if view.snapshot.Some? then view.snapshot.value.query else view.draft, view.reviewCase,
                         scenario, width, now);
    }
  }

  // ---- the invariant of a mounted controller ----

  predicate Armed(s: State) {
    && |s.timers| == 2 && s.timers[0] != s.timers[1]
    && s.pending.Keys == {s.timers[0], s.timers[1]}
    && var first, second := s.pending[s.timers[0]], s.pending[s.timers[1]];
    && first.token == second.token == s.generation && !first.timeout && second.timeout
    && ValidQuery(first.captured) && second == first.(timeout := true)
  }

  ghost predicate Invariant(s: State) {
    && (if s.view.busy then Armed(s) else s.pending == map[])
    && (forall id :: id in s.pending ==> id < s.nextTimer)
    && (s.view.failure.Some? ==> s.view.snapshot.None?)
    && (s.view.snapshot.Some? ==>
          && s.view.snapshot.value.elapsedMs < TIMEOUT_MS
          && ValidQuery(s.view.snapshot.value.query)
          && FixedPoint(s.view.snapshot.value)
          && Fits(s.view.snapshot.value, CapturedAt(s.view.snapshot.value)))
  }

  datatype Event =
    | Rendered(scenario: Scenario)
    | Collect(query: FlowQuery, reviewCase: ReviewCase, at: Scenario, width: int, now: Instant)
    | Refresh(at: Scenario, width: int, now: Instant)
    | Fire(id: nat, moment: Moment)
    | Draft(draft: FlowQuery)
    | Page(page: int)
    | Select(row: string)

  /** Every scheduled collection was admitted, so its query cannot make the capture throw. */
  predicate Sane(s: State) {
    forall id :: id in s.pending ==> ValidQuery(s.pending[id].captured)
  }

  /** The host fires only timers it still holds. */
  function Step(s: State, e: Event): State
    requires Sane(s)
  {
    match e
    case Rendered(scenario) => AfterScenario(s, scenario)
    case Collect(q, reviewCase, at, width, now) => AfterCollect(s, q, reviewCase, at, width, now)
    case Refresh(at, width, now) => AfterCollect(s, RefreshQuery(s), s.view.reviewCase, at, width, now)
    case Fire(id, m) => if id in s.pending then AfterFire(s, id, m) else s
    case Draft(draft) => AfterDraft(s, draft)
    case Page(page) => s.(view := s.view.(page := page, selectedId := None))
    case Select(row) => s.(view := s.view.(selectedId := Some(row)))
  }

  /** Firing any pending timer ends the collection: nothing stays pending and nothing stays busy. */
  lemma FireEndsTheCollection(s: State, id: nat, m: Moment)
    requires Invariant(s) && id in s.pending
    ensures
      var next := AfterFire(s, id, m);
      && s.view.busy && s.pending[id].token == s.generation == next.generation
      && !next.view.busy && next.pending == map[] && Invariant(next)
      && (next.view.snapshot.Some? && Permitted(m) ==> next.view.snapshot.value.query == s.pending[id].captured)
      && (m.scenario.PermissionDenied? ==> next.view.snapshot.None?)
  {
    assert Cleared(s.(pending := s.pending - {id})).pending == map[];
  }

  /** Every event keeps the invariant. */
  lemma StepKeepsInvariant(s: State, e: Event)
    requires Invariant(s)
    ensures Sane(s) && Invariant(Step(s, e))
  {
    match e
    case Fire(id, m) => if id in s.pending { FireEndsTheCollection(s, id, m); }
    case Rendered(scenario) => assert Cleared(s).pending == map[];
    case _ =>
  }

  /** A permission denial reaches the controller with a rendered scenario or when a timer fires. */
  predicate DeniedBy(s: State, e: Event) {
    || e == Rendered(Scenario.PermissionDenied)
    || (e.Fire? && e.id in s.pending && e.moment.scenario.PermissionDenied?)
  }

  /** What a step can do to the generation and to the timers. */
  predicate TimersMove(s: State, e: Event, next: State) {
    && s.generation <= next.generation <= s.generation + 1
    && (next.generation == s.generation ==> next.pending in {s.pending, map[]})
    && (e.Fire? && e.id in s.pending ==>
          s.pending[e.id].token == s.generation == next.generation && next.pending == map[])
    && (next.generation > s.generation ==>
          forall id :: id in next.pending ==>
            && next.pending[id].token == next.generation
            && ((e.Collect? && next.pending[id].captured == e.query)
                || (e.Refresh? && next.pending[id].captured == RefreshQuery(s))))
  }

  /** What a step can do to the snapshot. */
  predicate SnapshotMoves(s: State, e: Event, next: State) {
    && (next.view.snapshot.Some? ==>
          next.view.snapshot == s.view.snapshot || (e.Fire? && e.id in s.pending && Permitted(e.moment)))
    && (e.Fire? && e.id in s.pending && next.view.snapshot.Some? && Permitted(e.moment) ==>
          next.view.snapshot.value.query == s.pending[e.id].captured)
    && (DeniedBy(s, e) ==> next.view.snapshot.None?)
  }

  ghost predicate Moves(s: State, e: Event, next: State) {
    Invariant(next) && TimersMove(s, e, next) && SnapshotMoves(s, e, next)
  }

  lemma StepMovesTimers(s: State, e: Event)
    requires Invariant(s) && Sane(s)
    ensures TimersMove(s, e, Step(s, e))
  {
    if e.Fire? && e.id in s.pending { FireEndsTheCollection(s, e.id, e.moment); }
  }

  lemma StepMovesSnapshot(s: State, e: Event)
    requires Invariant(s) && Sane(s)
    ensures SnapshotMoves(s, e, Step(s, e))
  {
    if e.Fire? && e.id in s.pending { FireEndsTheCollection(s, e.id, e.moment); }
  }

  lemma StepMoves(s: State, e: Event)
    requires Invariant(s)
    ensures Sane(s) && Moves(s, e, Step(s, e))
  {
    StepKeepsInvariant(s, e);
    StepMovesTimers(s, e);
    StepMovesSnapshot(s, e);
  }

  // ---- what each event does ----

  /**
   * An admitted collection arms one ordinary and one timed completion of the same query; a refused one does nothing.
   */
  lemma CollectOutcome(s: State, q: FlowQuery, reviewCase: ReviewCase, scenario: Scenario, width: int, now: Instant)
    requires Invariant(s) && Sane(s)
    ensures
      var next := Step(s, Collect(q, reviewCase, scenario, width, now));
      if width < 768 || s.view.busy || ServiceBlocked(scenario) || !ValidQuery(q) then next == s
      else
        && next.generation == s.generation + 1
        && next.view == s.view.(busy := true, reviewCase := reviewCase, failure := None)
        && exists ordinary, timed ::
             && ordinary != timed && next.timers == [ordinary, timed]
             && next.pending == map[ordinary := Timer(next.generation, false, now, q, reviewCase),
                                    timed := Timer(next.generation, true, now, q, reviewCase)]
  {
    var next := Step(s, Collect(q, reviewCase, scenario, width, now));
    if Admitted(q, scenario, width, s.view.busy) {
      var id := s.nextTimer;
      assert next.pending == map[id := Timer(next.generation, false, now, q, reviewCase),
                                 id + 1 := Timer(next.generation, true, now, q, reviewCase)];
    }
  }

  /** A refresh repeats the query that is shown, or collects the draft when nothing is shown. */
  lemma RefreshOutcome(s: State, scenario: Scenario, width: int, now: Instant)
    requires Invariant(s) && Sane(s)
    ensures Step(s, Refresh(scenario, width, now)) ==
      Step(s, Collect(if s.view.snapshot.Some? then s.view.snapshot.value.query else s.view.draft, s.view.reviewCase,
                      scenario, width, now))
  {
  }

  /** A scenario without service ends a collection at once and keeps what was shown, unless access is denied. */
  lemma RenderOutcome(s: State, scenario: Scenario)
    requires Invariant(s) && Sane(s)
    ensures
      var next := Step(s, Rendered(scenario));
      if scenario in {Scenario.Loading, Scenario.Empty, Scenario.Error, Scenario.ProviderUnavailable,
                      Scenario.NetworkLoss}
      then next.pending == map[] && next.generation == s.generation + 1 && next.view == s.view.(busy := false)
      else if scenario.PermissionDenied? then
        && next.pending == map[] && next.generation == s.generation + 1
        && next.view == s.view.(busy := false, snapshot := None, failure := Some(Failure.PermissionDenied),
                                selectedId := None, page := 1)
      else next == s
  {
    assert Cleared(s).pending == map[];
  }

  /** A draft is taken only between collections; paging drops the selection. None of them touches a collection. */
  lemma ViewEventsOutcome(s: State, draft: FlowQuery, page: int, row: string)
    requires Invariant(s) && Sane(s)
    ensures Step(s, Draft(draft)) == if s.view.busy then s else s.(view := s.view.(draft := draft))
    ensures Step(s, Page(page)) == s.(view := s.view.(page := page, selectedId := None))
    ensures Step(s, Select(row)) == s.(view := s.view.(selectedId := Some(row)))
  {
  }

  /** The collection ends without a result when the service or the window no longer permits it. */
  lemma StoppedOutcome(s: State, id: nat, m: Moment)
    requires Invariant(s) && Sane(s) && id in s.pending && (ServiceBlocked(m.scenario) || m.width < 768)
    ensures
      var next := Step(s, Fire(id, m));
      && next.pending == map[] && next.generation == s.generation
      && next.view == (if m.scenario.PermissionDenied?
                       then s.view.(busy := false, snapshot := None, failure := Some(Failure.PermissionDenied))
                       else s.view.(busy := false))
  {
    FireEndsTheCollection(s, id, m);
  }

  /** Why a permitted completion has no result: access, then the provider, then time. */
  function FailureOf(t: Timer, m: Moment): Option<Failure> {
    if !t.timeout && t.reviewCase.PermissionDeniedCase? then Some(Failure.PermissionDenied)
    else if t.captured.bridge == "br-offload" || (!t.timeout && t.reviewCase.ProviderUnavailableCase?)
      then Some(Failure.ProviderUnavailable)
    else if t.timeout || t.reviewCase.QueryTimeoutCase? || m.now - t.started >= 5000 then Some(QueryTimeout)
    else None
  }

  /**
   * A permitted completion in any reachable state fails exactly for a denied, unavailable or late collection, always
   * when it is the timed one, and otherwise shows what matched.
   */
  lemma CompletionOutcome(s: State, id: nat, m: Moment)
    requires Invariant(s) && Sane(s) && id in s.pending && !ServiceBlocked(m.scenario) && m.width >= 768
    ensures
      var t, next := s.pending[id], Step(s, Fire(id, m));
      && next.pending == map[] && next.generation == s.generation
      && next.view == s.view.(snapshot := next.view.snapshot, failure := FailureOf(t, m), busy := false, page := 1,
                              selectedId := None)
      && (if FailureOf(t, m).Some? then next.view.snapshot.None?
          else
            && next.view.snapshot.Some?
            && Describes(next.view.snapshot.value, t.captured, t.reviewCase, t.started, m)
            && ShowsRows(next.view.snapshot.value, if t.reviewCase.EmptyCase? then [] else m.matched, m.now))
  {
    FireEndsTheCollection(s, id, m);
    AvailableBridges(s.pending[id].captured);
  }

  lemma AvailableBridges(q: FlowQuery)
    requires ValidQuery(q)
    ensures SourceOf(q.bridge).value.available <==> q.bridge != "br-offload"
  {
  }

  // ---- runs of a mounted controller ----

  datatype Run = Run(states: seq<State>, events: seq<Event>)

  predicate StepAt(r: Run, i: nat)
    requires i < |r.events| && |r.states| == |r.events| + 1
  {
    Sane(r.states[i]) && r.states[i + 1] == Step(r.states[i], r.events[i])
  }

  predicate Steps(r: Run) {
    && |r.states| == |r.events| + 1 && r.states[0] == INITIAL
    && forall i :: 0 <= i < |r.events| ==> StepAt(r, i)
  }

  lemma {:induction false} InvariantAt(r: Run, n: nat)
    requires Steps(r) && n <= |r.events|
    ensures Invariant(r.states[n])
  {
    if n > 0 {
      InvariantAt(r, n - 1);
      assert StepAt(r, n - 1);
      StepKeepsInvariant(r.states[n - 1], r.events[n - 1]);
    }
  }

  lemma MovesAt(r: Run, i: nat)
    requires Steps(r) && i < |r.events|
    ensures Moves(r.states[i], r.events[i], r.states[i + 1])
  {
    InvariantAt(r, i);
    assert StepAt(r, i);
    StepMoves(r.states[i], r.events[i]);
  }

  /** Every event can follow every run, so the run theorems cover all event sequences. */
  lemma EveryEventExtendsARun(r: Run, e: Event)
    requires Steps(r)
    ensures Sane(r.states[|r.events|])
    ensures Steps(Run(r.states + [Step(r.states[|r.events|], e)], r.events + [e]))
  {
    InvariantAt(r, |r.events|);
    StepMoves(r.states[|r.events|], e);
    var longer := Run(r.states + [Step(r.states[|r.events|], e)], r.events + [e]);
    forall i | 0 <= i < |longer.events| ensures StepAt(longer, i) {
      if i < |r.events| { assert StepAt(r, i); }
    }
  }

  /** Busy means two live timers of the current generation; idle means that no timer is left at all. */
  lemma BusyMeansTwoLiveTimers(r: Run, n: nat)
    requires Steps(r) && n <= |r.events|
    ensures
      var s := r.states[n];
      && (s.view.busy <==> |s.pending| == 2)
      && (!s.view.busy ==> s.pending == map[])
      && (forall id :: id in s.pending ==> s.pending[id].token == s.generation)
      && (s.view.failure.Some? ==> s.view.snapshot.None?)
      && (s.view.snapshot.Some? ==> s.view.snapshot.value.elapsedMs < TIMEOUT_MS)
  {
    InvariantAt(r, n);
    var s := r.states[n];
    if s.view.busy {
      assert |s.pending| == |s.pending.Keys| == |{s.timers[0], s.timers[1]}| == 2;
    }
  }

  /** A timer that was pending when the host fired it. */
  ghost predicate Effective(r: Run, i: nat)
    requires Steps(r) && i < |r.events|
  {
    r.events[i].Fire? && r.events[i].id in r.states[i].pending
  }

  ghost function TokenAt(r: Run, i: nat): nat
    requires Steps(r) && i < |r.events| && Effective(r, i)
  {
    r.states[i].pending[r.events[i].id].token
  }

  lemma {:induction false} SpentTokenStaysSpent(r: Run, i: nat, n: nat)
    requires Steps(r) && i < n <= |r.events| && Effective(r, i)
    ensures
      var s := r.states[n];
      s.generation > TokenAt(r, i) || (s.generation == TokenAt(r, i) && s.pending == map[])
    decreases n
  {
    MovesAt(r, n - 1);
    if n > i + 1 { SpentTokenStaysSpent(r, i, n - 1); }
  }

  /** Each collection takes effect at most once: effective timers of a run have strictly growing tokens. */
  lemma CollectionsTakeEffectOnce(r: Run, i: nat, j: nat)
    requires Steps(r) && i < j < |r.events| && Effective(r, i) && Effective(r, j)
    ensures TokenAt(r, i) < TokenAt(r, j)
  {
    SpentTokenStaysSpent(r, i, j);
    MovesAt(r, j);
  }

  ghost predicate AdmittedAt(r: Run, i: nat)
    requires Steps(r) && i < |r.events|
  {
    && (r.events[i].Collect? || r.events[i].Refresh?)
    && r.states[i + 1].generation == r.states[i].generation + 1
  }

  ghost function QueryAt(r: Run, i: nat): FlowQuery
    requires Steps(r) && i < |r.events| && AdmittedAt(r, i)
  {
    if r.events[i].Collect? then r.events[i].query else RefreshQuery(r.states[i])
  }

  lemma {:induction false} PendingKeepsItsQuery(r: Run, i: nat, n: nat, id: nat)
    requires Steps(r) && i < n <= |r.events| && AdmittedAt(r, i)
    requires r.states[n].generation == r.states[i + 1].generation && id in r.states[n].pending
    ensures r.states[n].pending[id].captured == QueryAt(r, i)
    decreases n
  {
    if n > i + 1 {
      GenerationNeverFalls(r, i + 1, n - 1);
      MovesAt(r, n - 1);
      PendingKeepsItsQuery(r, i, n - 1, id);
    } else {
      MovesAt(r, i);
    }
  }

  lemma {:induction false} GenerationNeverFalls(r: Run, i: nat, j: nat)
    requires Steps(r) && i <= j <= |r.events|
    ensures r.states[i].generation <= r.states[j].generation
    decreases j
  {
    if i < j {
      GenerationNeverFalls(r, i, j - 1);
      MovesAt(r, j - 1);
    }
  }

  /** Whatever is pending was admitted, under the generation that is still current. */
  lemma {:induction false} PendingWasAdmitted(r: Run, n: nat)
    requires Steps(r) && n <= |r.events| && r.states[n].pending != map[]
    ensures exists i: nat :: i < n && AdmittedAt(r, i) && r.states[i + 1].generation == r.states[n].generation
  {
    if n > 0 {
      MovesAt(r, n - 1);
      var id :| id in r.states[n].pending;
      if r.states[n].generation > r.states[n - 1].generation {
        assert AdmittedAt(r, n - 1);
      } else {
        PendingWasAdmitted(r, n - 1);
      }
    }
  }

  /** The snapshot a collection leaves answers the query it was admitted with, whatever was typed meanwhile. */
  lemma CompletionAnswersItsQuery(r: Run, i: nat, j: nat)
    requires Steps(r) && i < j < |r.events| && AdmittedAt(r, i) && Effective(r, j) && Permitted(r.events[j].moment)
    requires TokenAt(r, j) == r.states[i + 1].generation
    requires r.states[j + 1].view.snapshot.Some?
    ensures r.states[j + 1].view.snapshot.value.query == QueryAt(r, i)
  {
    MovesAt(r, j);
    PendingKeepsItsQuery(r, i, j, r.events[j].id);
  }

  /** The collection admitted by event `i` and completed by event `j` left this snapshot. */
  ghost predicate LeftBy(r: Run, i: nat, j: nat, snapshot: FlowSnapshot)
    requires Steps(r) && j < |r.events|
  {
    && i < j && AdmittedAt(r, i) && Effective(r, j) && Permitted(r.events[j].moment)
    && TokenAt(r, j) == r.states[i + 1].generation
    && r.states[j + 1].view.snapshot == Some(snapshot) && snapshot.query == QueryAt(r, i)
  }

  /**
   * In every reachable state the snapshot shown was left by one collection, and answers the query that was admitted.
   */
  lemma {:induction false} SnapshotAnswersTheAdmittedQuery(r: Run, n: nat)
    requires Steps(r) && n <= |r.events| && r.states[n].view.snapshot.Some?
    ensures exists i: nat, j: nat :: i < j < n && LeftBy(r, i, j, r.states[n].view.snapshot.value)
  {
    if n > 0 {
      MovesAt(r, n - 1);
      if r.states[n].view.snapshot == r.states[n - 1].view.snapshot {
        SnapshotAnswersTheAdmittedQuery(r, n - 1);
      } else {
        PendingWasAdmitted(r, n - 1);
        var i: nat :| i < n - 1 && AdmittedAt(r, i) && r.states[i + 1].generation == r.states[n - 1].generation;
        CompletionAnswersItsQuery(r, i, n - 1);
        assert LeftBy(r, i, n - 1, r.states[n].view.snapshot.value);
      }
    }
  }

  /** No completion that was still permitted happens from `i` on, before `n`. */
  ghost predicate NoPermittedCompletion(r: Run, i: nat, n: nat)
    requires Steps(r) && n <= |r.events|
  {
    forall x :: i < x < n ==> !(Effective(r, x) && Permitted(r.events[x].moment))
  }

  /** After a processed permission denial nothing is shown until a later permitted collection completes. */
  lemma {:induction false} DenialHidesTheSnapshot(r: Run, i: nat, n: nat)
    requires Steps(r) && i < n <= |r.events| && DeniedBy(r.states[i], r.events[i]) && NoPermittedCompletion(r, i, n)
    ensures r.states[n].view.snapshot.None?
    decreases n
  {
    if n > i + 1 {
      DenialHidesTheSnapshot(r, i, n - 1);
      MovesAt(r, n - 1);
      assert !(Effective(r, n - 1) && Permitted(r.events[n - 1].moment));
    } else {
      MovesAt(r, i);
    }
  }

  /** A retained snapshot has at most 500 rows, and its every export stays within the ceiling. */
  lemma RetainedExportsFit(r: Run, n: nat, now: int, degraded: bool, unavailable: bool)
    requires Steps(r) && n <= |r.events| && r.states[n].view.snapshot.Some?
    ensures |r.states[n].view.snapshot.value.rows| <= ROW_LIMIT
    ensures ExportBytes(r.states[n].view.snapshot.value, now, degraded, unavailable) <= BYTE_LIMIT
  {
    var s := r.states[n].view.snapshot.value;
    InvariantAt(r, n);
    ResultIsAPrefix(s, CapturedAt(s), s);
    EveryLaterExportFits(s, CapturedAt(s), now, degraded, unavailable);
  }
}
