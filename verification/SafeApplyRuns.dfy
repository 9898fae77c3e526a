/** Safety of Safe Apply over whole runs of actions from the initial state. */
module SafeApplyRuns {
  import opened Strings
  import opened Vocabulary
  import opened Vlan
  import opened ChangeControl
  import opened SafeApply

  /** A run: the states it visits, the action taken in each, and the event of each step. */
  datatype Run = Run(states: seq<State>, actions: seq<Action>, events: seq<StepEvent>) {
    predicate Shaped() { |states| == |actions| + 1 == |events| + 1 }
  }

  predicate AllowedAt(r: Run, i: nat)
    requires r.Shaped() && i < |r.actions|
  {
    ProtocolStep(r.states[i], r.actions[i], r.states[i + 1], r.events[i])
  }

  predicate NativeAt(r: Run, i: nat)
    requires r.Shaped() && i < |r.actions|
  {
    NativeStep(r.states[i], r.actions[i], r.states[i + 1], r.events[i])
  }

  /** A run of the protocol: invariant states, joined by steps that change only what their events allow. */
  predicate Follows(r: Run) {
    && r.Shaped()
    && (forall i :: 0 <= i < |r.states| ==> Invariant(r.states[i]))
    && (forall i :: 0 <= i < |r.actions| ==> AllowedAt(r, i))
    && (forall i :: 0 <= i < |r.actions| ==> NativeAt(r, i))
  }

  /** Step `i` of `r` is a step of the reducer. */
  predicate ReducerStep(r: Run, i: nat)
    requires r.Shaped() && i < |r.actions|
  {
    && Anchored(r.states[i])
    && r.states[i + 1] == Transition(r.states[i], r.actions[i])
    && r.events[i] == EventOf(r.states[i], r.actions[i], r.states[i + 1])
  }

  /** A run of the reducer from any state. */
  predicate ReducerSteps(r: Run) {
    r.Shaped() && forall i :: 0 <= i < |r.actions| ==> ReducerStep(r, i)
  }

  /** A run of the reducer from the initial state. */
  predicate ReducerRun(r: Run) {
    ReducerSteps(r) && r.states[0] == INITIAL
  }

  lemma InitialIsInvariant()
    ensures Invariant(INITIAL) && INITIAL.validatedRevision.None? && INITIAL.candidate.None?
    ensures !Locked(INITIAL.transaction.status)
  {
  }

  lemma ReducerStepFollows(r: Run, i: nat)
    requires r.Shaped() && i < |r.actions| && Invariant(r.states[i]) && ReducerStep(r, i)
    ensures Invariant(r.states[i + 1]) && AllowedAt(r, i) && NativeAt(r, i)
  {
    StepIsGood(r.states[i], r.actions[i]);
  }

  lemma {:induction false} PrefixFollows(r: Run, n: nat)
    requires ReducerRun(r) && n <= |r.actions|
    ensures forall i :: 0 <= i <= n ==> Invariant(r.states[i])
    ensures forall i :: 0 <= i < n ==> AllowedAt(r, i)
    ensures forall i :: 0 <= i < n ==> NativeAt(r, i)
  {
    if n == 0 {
      InitialIsInvariant();
    } else {
      PrefixFollows(r, n - 1);
      ReducerStepFollows(r, n - 1);
    }
  }

  /** Every run of the reducer, whatever its actions, is a run of the protocol. */
  lemma EveryRunFollowsTheProtocol(r: Run)
    requires ReducerRun(r)
    ensures Follows(r)
  {
    PrefixFollows(r, |r.actions|);
  }

  /** Every action sequence has its run: the reducer is total on the states it reaches. */
  function Trace(actions: seq<Action>): (r: Run)
    ensures r.actions == actions && ReducerRun(r) && Follows(r)
  {
    if actions == [] then
      InitialIsInvariant();
      Run([INITIAL], [], [])
    else
      var n := |actions| - 1;
      var r := Trace(actions[..n]);
      var next := Transition(r.states[n], actions[n]);
      var longer := Run(r.states + [next], actions, r.events + [EventOf(r.states[n], actions[n], next)]);
      SameSteps(r, longer);
      assert longer.states[0] == INITIAL && ReducerStep(longer, n);
      EveryRunFollowsTheProtocol(longer);
      longer
  }

  lemma SameSteps(r: Run, longer: Run)
    requires ReducerSteps(r) && longer.Shaped() && |r.actions| < |longer.actions|
    requires longer.actions[..|r.actions|] == r.actions
    requires longer.states[..|r.states|] == r.states && longer.events[..|r.events|] == r.events
    ensures forall i :: 0 <= i < |r.actions| ==> ReducerStep(longer, i)
  {
    forall i | 0 <= i < |r.actions| ensures ReducerStep(longer, i) {
      SameStep(r, longer, i);
    }
  }

  lemma SameStep(r: Run, longer: Run, i: nat)
    requires ReducerSteps(r) && longer.Shaped() && i < |r.actions| < |longer.actions|
    requires longer.actions[..|r.actions|] == r.actions
    requires longer.states[..|r.states|] == r.states && longer.events[..|r.events|] == r.events
    ensures ReducerStep(longer, i)
  {
    assert ReducerStep(r, i);
    assert longer.states[i] == longer.states[..|r.states|][i]
      && longer.states[i + 1] == longer.states[..|r.states|][i + 1];
    assert longer.actions[i] == longer.actions[..|r.actions|][i] && longer.events[i] == longer.events[..|r.events|][i];
  }

  // ---- live configuration is the fold of the event log ----

  function FoldLive(r: Run, n: nat): map<string, VlanValue>
    requires r.Shaped() && n <= |r.actions|
  {
    if n == 0 then r.states[0].live
    else
      var live := FoldLive(r, n - 1);
      match r.events[n - 1]
      case Committed(_, c) => if c.VlanCandidate? then live[c.port.name := c.mine] else live
      case Rebased(o) => if o.Some? then live[o.value.0 := o.value.1] else live
      case _ => live
  }

  /** After any run the live configuration is exactly the fold of commits and rebase observations. */
  lemma {:induction false} LiveIsTheFoldOfTheLog(r: Run, n: nat)
    requires Follows(r) && n <= |r.actions|
    ensures r.states[n].live == FoldLive(r, n)
  {
    if n > 0 {
      LiveIsTheFoldOfTheLog(r, n - 1);
      assert AllowedAt(r, n - 1);
    }
  }

  function FoldEnabled(r: Run, n: nat): Option<bool>
    requires r.Shaped() && n <= |r.actions|
  {
    if n == 0 then r.states[0].nativeEnabled else EnabledAfter(r.events[n - 1], FoldEnabled(r, n - 1))
  }

  /** After any run the native feature is as the last start or resolution of an isolation change left it. */
  lemma {:induction false} EnabledIsTheFoldOfTheLog(r: Run, n: nat)
    requires Follows(r) && n <= |r.actions|
    ensures r.states[n].nativeEnabled == FoldEnabled(r, n)
  {
    if n > 0 {
      EnabledIsTheFoldOfTheLog(r, n - 1);
      assert NativeAt(r, n - 1);
    }
  }

  // ---- where a commit comes from ----

  /** From `from` to `to`, the candidate and its proof stay exactly as validated. */
  predicate UnchangedSinceValidation(r: Run, from: nat, to: nat, c: Candidate)
    requires r.Shaped() && from <= to <= |r.actions|
  {
    forall x :: from <= x <= to ==>
      && r.states[x].candidate == Some(c)
      && r.states[x].scenario.Normal?
      && !Locked(r.states[x].transaction.status)
      && (c.Isolation() ==> r.states[x].nativeCapability == r.states[from].nativeCapability)
  }

  predicate ValidatedAt(r: Run, j: nat, k: nat, c: Candidate)
    requires r.Shaped() && k <= |r.actions|
  {
    j < k && r.events[j] == Validated(c) && UnchangedSinceValidation(r, j, k, c)
  }

  lemma ValidationFrame(s: State, a: Action, next: State, e: StepEvent)
    requires Invariant(s) && ProtocolStep(s, a, next, e)
    requires next.validatedRevision.Some? && !Locked(next.transaction.status)
    ensures
      || e.Validated?
      || (&& s.validatedRevision == next.validatedRevision && s.candidate == next.candidate
          && !Locked(s.transaction.status)
          && (s.candidate.Some? && s.candidate.value.Isolation() ==> s.nativeCapability == next.nativeCapability))
  {
  }

  /** An unlocked state that carries a validated revision owes it to an accepted validation of its very candidate. */
  lemma {:induction false} ValidationBindsToTheCandidate(r: Run, k: nat)
    requires Follows(r) && r.states[0].validatedRevision.None? && k <= |r.actions|
    requires r.states[k].validatedRevision.Some? && !Locked(r.states[k].transaction.status)
    ensures exists j: nat :: j < k && ValidatedAt(r, j, k, r.states[k].candidate.value)
  {
    var s := r.states[k];
    var before := r.states[k - 1];
    assert AllowedAt(r, k - 1);
    ValidationFrame(before, r.actions[k - 1], s, r.events[k - 1]);
    if r.events[k - 1].Validated? {
      assert ValidatedAt(r, k - 1, k, s.candidate.value);
    } else {
      ValidationBindsToTheCandidate(r, k - 1);
      var j: nat :| j < k - 1 && ValidatedAt(r, j, k - 1, before.candidate.value);
      assert ValidatedAt(r, j, k, s.candidate.value);
    }
  }

  predicate StartedAt(r: Run, k: nat, m: nat, job: nat, c: Candidate)
    requires r.Shaped() && m <= |r.actions|
  {
    && k < m && r.events[k] == Started(job, c)
    && forall x :: k < x <= m ==>
        && Locked(r.states[x].transaction.status)
        && r.states[x].transaction.snapshot == r.states[x].candidate == Some(c)
        && r.states[x].transaction.job == Some(job)
        && r.states[x].live == r.states[k].live
        && r.states[x].generation == r.states[k].generation
  }

  /** A step into a locked state either starts the transaction or leaves everything about it in place. */
  lemma LockFrame(r: Run, i: nat)
    requires Follows(r) && i < |r.actions| && Locked(r.states[i + 1].transaction.status)
    ensures
      var s, next := r.states[i], r.states[i + 1];
      && next.transaction.snapshot == next.candidate && next.candidate.Some?
      && next.transaction.job == Some(next.sequence)
      && next.live == s.live && next.generation == s.generation
      && if r.events[i].Started? then r.events[i] == Started(next.sequence, next.candidate.value)
         else Locked(s.transaction.status) && s.candidate == next.candidate && s.sequence == next.sequence
  {
    assert AllowedAt(r, i);
  }

  /** While a transaction is open its candidate is frozen, and exactly one accepted start opened it. */
  lemma {:induction false} LockedSinceStart(r: Run, m: nat)
    requires Follows(r) && !Locked(r.states[0].transaction.status) && m <= |r.actions|
    requires Locked(r.states[m].transaction.status)
    ensures exists k: nat :: k < m && StartedAt(r, k, m, r.states[m].sequence,
                                                r.states[m].candidate.value)
  {
    var s := r.states[m];
    var before := r.states[m - 1];
    LockFrame(r, m - 1);
    if r.events[m - 1].Started? {
      assert StartedAt(r, m - 1, m, s.sequence, s.candidate.value);
    } else {
      LockedSinceStart(r, m - 1);
      var k: nat :| k < m - 1 && StartedAt(r, k, m - 1, before.sequence, before.candidate.value);
      assert StartedAt(r, k, m, s.sequence, s.candidate.value);
    }
  }

  /** While an isolation transaction is open the native feature counts as enabled. */
  lemma {:induction false} OpenIsolationIsEnabled(r: Run, m: nat)
    requires Follows(r) && !Locked(r.states[0].transaction.status) && m <= |r.actions|
    requires Locked(r.states[m].transaction.status) && r.states[m].candidate.value.Isolation()
    ensures r.states[m].nativeEnabled == Some(true)
  {
    assert AllowedAt(r, m - 1) && NativeAt(r, m - 1);
    if !r.events[m - 1].Started? { OpenIsolationIsEnabled(r, m - 1); }
  }

  predicate StagedAt(r: Run, i: nat, j: nat, c: Candidate)
    requires r.Shaped() && j <= |r.actions|
  {
    && i < j && r.events[i].Drafted?
    && r.states[i + 1].candidate.Some?
    && StagedBy(r.states[i], r.actions[i], r.states[i + 1].candidate.value)
    && forall x :: i < x <= j ==>
        r.states[x].candidate.Some? && SameContent(r.states[x].candidate.value, c)
  }

  /** A candidate after a step was either staged by that step or is the one before it in content. */
  lemma ContentFrame(r: Run, i: nat)
    requires Follows(r) && i < |r.actions| && r.states[i + 1].candidate.Some?
    ensures
      var s, c := r.states[i], r.states[i + 1].candidate.value;
      if r.events[i].Drafted? then StagedBy(s, r.actions[i], c)
      else s.candidate.Some? && SameContent(s.candidate.value, c)
  {
    assert AllowedAt(r, i);
  }

  /** A candidate's content was put there by an accepted staging action and by nothing else. */
  lemma {:induction false} ContentWasStaged(r: Run, j: nat)
    requires Follows(r) && r.states[0].candidate.None? && j <= |r.actions|
    requires r.states[j].candidate.Some?
    ensures exists i: nat :: i < j && StagedAt(r, i, j, r.states[j].candidate.value)
  {
    var s := r.states[j];
    var before := r.states[j - 1];
    ContentFrame(r, j - 1);
    if r.events[j - 1].Drafted? {
      assert StagedAt(r, j - 1, j, s.candidate.value);
    } else {
      ContentWasStaged(r, j - 1);
      var i: nat :| i < j - 1 && StagedAt(r, i, j - 1, before.candidate.value);
      assert StagedAt(r, i, j, s.candidate.value);
    }
  }

  /** An accepted start applies exactly the candidate that was validated, with nothing changed in between. */
  lemma StartAppliesWhatWasValidated(r: Run, k: nat)
    requires ReducerRun(r) && k < |r.actions| && r.events[k].Started?
    ensures
      var Started(job, c) := r.events[k];
      && (exists j: nat :: j < k && ValidatedAt(r, j, k, c))
      && r.states[k + 1].transaction.snapshot == Some(c)
      && (c.VlanCandidate? ==> Valid(c.mine))
  {
    EveryRunFollowsTheProtocol(r);
    assert AllowedAt(r, k);
    ValidationBindsToTheCandidate(r, k);
  }

  /**
   * Every commit carries a candidate that was staged, then validated, then started as that same
   * value, and that stayed frozen until the commit.
   */
  lemma CommitHasItsWholeHistory(r: Run, m: nat)
    requires ReducerRun(r) && m < |r.actions| && r.events[m].Committed?
    ensures
      var Committed(job, c) := r.events[m];
      exists i: nat, j: nat, k: nat :: i < j < k < m
        && StagedAt(r, i, j, c)
        && ValidatedAt(r, j, k, c)
        && StartedAt(r, k, m, job, c)
  {
    EveryRunFollowsTheProtocol(r);
    assert AllowedAt(r, m);
    var Committed(job, c) := r.events[m];
    LockedSinceStart(r, m);
    var k: nat :| k < m && StartedAt(r, k, m, job, c);
    StartAppliesWhatWasValidated(r, k);
    var j: nat :| j < k && ValidatedAt(r, j, k, c);
    ContentWasStaged(r, j);
    var i: nat :| i < j && StagedAt(r, i, j, c);
  }

  /** No commit of any run touches an Observe-only object, a Port of another owner or a malformed change. */
  lemma OnlyManageableObjectsAreCommitted(r: Run, m: nat)
    requires ReducerRun(r) && m < |r.actions| && r.events[m].Committed?
    ensures Manageable(r.events[m].committed)
  {
    CommitHasItsWholeHistory(r, m);
    var i: nat, j: nat :| i < j < m && StagedAt(r, i, j, r.events[m].committed);
    StagedContentIsManageable(r, i, j, r.events[m].committed);
  }

  lemma StagedContentIsManageable(r: Run, i: nat, j: nat, c: Candidate)
    requires r.Shaped() && j <= |r.actions| && StagedAt(r, i, j, c)
    ensures Manageable(c)
  {
    assert SameContent(r.states[i + 1].candidate.value, c);
  }

  lemma {:induction false} SequenceNeverFalls(r: Run, i: nat, j: nat)
    requires Follows(r) && i <= j <= |r.actions|
    ensures r.states[i].sequence <= r.states[j].sequence
    decreases j
  {
    if i < j {
      SequenceNeverFalls(r, i, j - 1);
      assert AllowedAt(r, j - 1);
    }
  }

  /** Two commits never share a job, and later commits have later jobs: nothing is committed twice. */
  lemma CommitsHaveDistinctJobs(r: Run, m1: nat, m2: nat)
    requires ReducerRun(r) && m1 < m2 < |r.actions|
    requires r.events[m1].Committed? && r.events[m2].Committed?
    ensures r.events[m1].job < r.events[m2].job
  {
    EveryRunFollowsTheProtocol(r);
    assert AllowedAt(r, m1) && AllowedAt(r, m2);
    LockedSinceStart(r, m2);
    var job, c := r.events[m2].job, r.events[m2].committed;
    var k: nat :| k < m2 && StartedAt(r, k, m2, job, c);
    assert AllowedAt(r, k);
    assert !Locked(r.states[m1 + 1].transaction.status);
    assert m1 + 1 <= k;
    SequenceNeverFalls(r, m1 + 1, k);
  }

  // ---- conservation ----

  /** How many of the first `n` events moved the generation: commits, safe rollbacks and rebases. */
  function GenerationMoves(r: Run, n: nat): nat
    requires r.Shaped() && n <= |r.actions|
  {
    if n == 0 then 0
    else
      var e := r.events[n - 1];
      GenerationMoves(r, n - 1) + (if e.Committed? || e.RolledBackSafely? || e.Rebased? then 1 else 0)
  }

  function Starts(r: Run, n: nat): nat
    requires r.Shaped() && n <= |r.actions|
  {
    if n == 0 then 0
    else Starts(r, n - 1) + (if r.events[n - 1].Started? then 1 else 0)
  }

  function Resolutions(r: Run, n: nat): nat
    requires r.Shaped() && n <= |r.actions|
  {
    if n == 0 then 0
    else
      var e := r.events[n - 1];
      Resolutions(r, n - 1) + (if e.Committed? || e.RolledBackSafely? || e.FoundNotApplied? then 1 else 0)
  }

  /** Generations and jobs are conserved over every run, and every start is resolved once or still open. */
  lemma {:induction false} RunsConserveGenerationsAndJobs(r: Run, n: nat)
    requires Follows(r) && !Locked(r.states[0].transaction.status) && n <= |r.actions|
    ensures
      var s := r.states[n];
      && s.generation == r.states[0].generation + GenerationMoves(r, n)
      && (r.states[0] == INITIAL ==> s.generation == 1842 + GenerationMoves(r, n))
      && s.sequence == r.states[0].sequence + Starts(r, n)
      && Starts(r, n) == Resolutions(r, n) + (if Locked(s.transaction.status) then 1 else 0)
  {
    if n > 0 {
      RunsConserveGenerationsAndJobs(r, n - 1);
      assert AllowedAt(r, n - 1);
    }
  }
}
