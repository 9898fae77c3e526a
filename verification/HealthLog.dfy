/** The health log: events between successive lists of components, and the `since` stamps kept beside them. */
module HealthLog {
  import opened Strings
  import opened Health

  predicate SameIdentity(a: Component, b: Component) {
    a.id == b.id && a.related == b.related && a.generation == b.generation
  }

  function Find(rows: seq<Component>, c: Component): (found: Option<Component>)
    ensures found.Some? ==> found.value in rows && SameIdentity(found.value, c)
    ensures found.None? ==> forall row :: row in rows ==> !SameIdentity(row, c)
  {
    if rows == [] then None else if SameIdentity(rows[0], c) then Some(rows[0]) else Find(rows[1..], c)
  }

  /** The row keeps its stamp while its status lasts; a changed status is stamped now; a new row keeps its own. */
  function Stamped(previous: seq<Component>, item: Component, now: int): Component {
    match Find(previous, item)
    case None => item
    case Some(before) => item.(since := if before.status == item.status && before.since > 0 then before.since else now)
  }

  function PreserveSince(previous: seq<Component>, next: seq<Component>, now: int): (rows: seq<Component>)
    ensures |rows| == |next|
  {
    seq(|next|, i requires 0 <= i < |next| => Stamped(previous, next[i], now))
  }

  datatype HealthEvent = HealthEvent(at: int, id: string, related: string, from: Status, to: Status)

  function EventsOf(previous: seq<Component>, next: seq<Component>, now: int): seq<HealthEvent> {
    if next == [] then []
    else
      var item := next[|next| - 1];
      var before := Find(previous, item);
      EventsOf(previous, next[..|next| - 1], now)
      + (if before.None? || before.value.status == item.status then []
         else [HealthEvent(now, item.id, item.related, before.value.status, item.status)])
  }

  /** Event `e` tells that row `k` of the new list is a known object whose status has changed. */
  predicate Tells(previous: seq<Component>, next: seq<Component>, now: int, k: nat, e: HealthEvent) {
    && k < |next|
    && Find(previous, next[k]).Some? && Find(previous, next[k]).value.status == e.from != next[k].status
    && e == HealthEvent(now, next[k].id, next[k].related, e.from, next[k].status)
  }

  /**
   * The log of one comparison has an event for each known object whose status changed, told as it changed, and no
   * other.
   */
  lemma {:induction false} EventsAreTheChanges(previous: seq<Component>, next: seq<Component>, now: int, e: HealthEvent)
    ensures e in EventsOf(previous, next, now) <==> exists k: nat :: Tells(previous, next, now, k, e)
  {
    if next != [] {
      var n := |next| - 1;
      var init := next[..n];
      EventsAreTheChanges(previous, init, now, e);
      if e in EventsOf(previous, init, now) {
        var k: nat :| Tells(previous, init, now, k, e);
        assert Tells(previous, next, now, k, e);
      } else if e in EventsOf(previous, next, now) {
        assert Tells(previous, next, now, n, e);
      } else if k: nat :| Tells(previous, next, now, k, e) {
        assert k < n ==> Tells(previous, init, now, k, e);
      }
    }
  }

  // ---- reading the log back ----

  /** Replays the events of one object over a status, together with the time of its last change. */
  function Replay(events: seq<HealthEvent>, id: string, start: (Status, int)): (Status, int) {
    if events == [] then start
    else
      var last := events[|events| - 1];
      if last.id == id then (last.to, last.at) else Replay(events[..|events| - 1], id, start)
  }

  lemma {:induction false} ReplayOfConcatenation(a: seq<HealthEvent>, b: seq<HealthEvent>, id: string,
                                                 start: (Status, int))
    ensures Replay(a + b, id, start) == Replay(b, id, Replay(a, id, start))
  {
    if b == [] {
      assert a + b == a;
    } else {
      assert (a + b)[..|a + b| - 1] == a + b[..|b| - 1];
      ReplayOfConcatenation(a, b[..|b| - 1], id, start);
    }
  }

  predicate UniqueIds(rows: seq<Component>) {
    forall i, j :: 0 <= i < j < |rows| ==> rows[i].id != rows[j].id
  }

  lemma {:induction false} NoRowNoEvent(previous: seq<Component>, next: seq<Component>, now: int, id: string,
                                        start: (Status, int))
    requires forall i :: 0 <= i < |next| ==> next[i].id != id
    ensures Replay(EventsOf(previous, next, now), id, start) == start
  {
    if next != [] {
      var init := next[..|next| - 1];
      NoRowNoEvent(previous, init, now, id, start);
      var events := EventsOf(previous, next, now);
      if events != EventsOf(previous, init, now) {
        assert events[..|events| - 1] == EventsOf(previous, init, now);
      }
    }
  }

  /** One step of the log tells exactly whether and to what the status of a known row changed. */
  lemma {:induction false} StepIsLogged(previous: seq<Component>, next: seq<Component>, now: int, k: nat,
                                        before: Component, since: int)
    requires UniqueIds(next) && k < |next| && Find(previous, next[k]) == Some(before)
    ensures Replay(EventsOf(previous, next, now), next[k].id, (before.status, since)) ==
              (if before.status == next[k].status then (before.status, since) else (next[k].status, now))
  {
    var n := |next| - 1;
    var init, item := next[..n], next[n];
    var events, earlier := EventsOf(previous, next, now), EventsOf(previous, init, now);
    if k < n {
      StepIsLogged(previous, init, now, k, before, since);
      if events != earlier { assert events[..|events| - 1] == earlier; }
    } else {
      NoRowNoEvent(previous, init, now, item.id, (before.status, since));
      if events != earlier { assert events[..|events| - 1] == earlier && events[|events| - 1].id == item.id; }
    }
  }

  // ---- whole runs ----

  /** One derivation: the fresh list and the time at which it is compared with the previous one. */
  datatype Derivation = Derivation(rows: seq<Component>, now: int)

  /** The list kept after the first `n` derivations. */
  function ListAfter(first: seq<Component>, run: seq<Derivation>, n: nat): seq<Component>
    requires n <= |run|
  {
    if n == 0 then first else PreserveSince(ListAfter(first, run, n - 1), run[n - 1].rows, run[n - 1].now)
  }

  /** All events emitted by the first `n` derivations. */
  function LogAfter(first: seq<Component>, run: seq<Derivation>, n: nat): seq<HealthEvent>
    requires n <= |run|
  {
    if n == 0 then []
    else LogAfter(first, run, n - 1) + EventsOf(ListAfter(first, run, n - 1), ListAfter(first, run, n), run[n - 1].now)
  }

  predicate WellFormedRun(first: seq<Component>, run: seq<Derivation>) {
    && UniqueIds(first)
    && forall i :: 0 <= i < |run| ==> UniqueIds(run[i].rows) && run[i].now > 0
  }

  predicate Present(rows: seq<Component>, c: Component) {
    exists k :: 0 <= k < |rows| && SameIdentity(rows[k], c)
  }

  predicate PresentThroughout(first: seq<Component>, run: seq<Derivation>, c: Component) {
    Present(first, c) && forall i :: 0 <= i < |run| ==> Present(run[i].rows, c)
  }

  function RowOf(rows: seq<Component>, c: Component): (row: Component)
    requires Present(rows, c)
    ensures row in rows && SameIdentity(row, c)
  {
    Find(rows, c).value
  }

  lemma {:induction false} PreservedRows(previous: seq<Component>, next: seq<Component>, now: int)
    requires UniqueIds(next)
    ensures UniqueIds(PreserveSince(previous, next, now))
    ensures forall c :: Present(next, c) <==> Present(PreserveSince(previous, next, now), c)
  {
    var rows := PreserveSince(previous, next, now);
    forall k | 0 <= k < |next| ensures SameIdentity(rows[k], next[k]) && rows[k].id == next[k].id {}
    forall c ensures Present(next, c) <==> Present(rows, c) {
      if Present(next, c) {
        var k :| 0 <= k < |next| && SameIdentity(next[k], c);
        assert SameIdentity(rows[k], c);
      }
      if Present(rows, c) {
        var k :| 0 <= k < |rows| && SameIdentity(rows[k], c);
        assert SameIdentity(next[k], c);
      }
    }
  }

  lemma {:induction false} FindAtIndex(rows: seq<Component>, k: nat, c: Component)
    requires UniqueIds(rows) && k < |rows| && SameIdentity(rows[k], c)
    ensures Find(rows, c) == Some(rows[k])
  {
    var found := Find(rows, c);
    assert rows[k] in rows;
    var j :| 0 <= j < |rows| && rows[j] == found.value;
    assert rows[j].id == rows[k].id;
  }

  lemma {:induction false} SameFind(rows: seq<Component>, a: Component, b: Component)
    requires SameIdentity(a, b)
    ensures Find(rows, a) == Find(rows, b)
  {
    if rows != [] { SameFind(rows[1..], a, b); }
  }

  lemma {:induction false} ListIsWellFormed(first: seq<Component>, run: seq<Derivation>, n: nat, c: Component)
    requires n <= |run| && WellFormedRun(first, run) && PresentThroughout(first, run, c)
    ensures UniqueIds(ListAfter(first, run, n)) && Present(ListAfter(first, run, n), c)
  {
    if n > 0 { PreservedRows(ListAfter(first, run, n - 1), run[n - 1].rows, run[n - 1].now); }
  }

  /** The kept list is the derived list in everything but the stamps; only the stamps of known objects are replaced. */
  lemma OnlyStampsAreKept(previous: seq<Component>, next: seq<Component>, now: int, i: nat)
    requires i < |next|
    ensures
      var row, before := PreserveSince(previous, next, now)[i], Find(previous, next[i]);
      && row == next[i].(since := row.since)
      && row.since == (if before.None? then next[i].since
                       else if before.value.status == next[i].status && before.value.since > 0 then before.value.since
                       else now)
  {
  }

  /** What one derivation does to a row known before: the log entry and the stamp tell the same story. */
  lemma StampAgreesWithLog(previous: seq<Component>, raw: seq<Component>, now: int, c: Component)
    requires UniqueIds(previous) && UniqueIds(raw) && Present(previous, c) && Present(raw, c) && now > 0
    requires RowOf(previous, c).since > 0
    ensures Present(PreserveSince(previous, raw, now), c)
    ensures
      var next := PreserveSince(previous, raw, now);
      var before, row := RowOf(previous, c), RowOf(next, c);
      && (row.status, row.since) == Replay(EventsOf(previous, next, now), c.id, (before.status, before.since))
      && row.since > 0
      && row == RowOf(raw, c).(since := if RowOf(raw, c).status == before.status then before.since else now)
  {
    var next := PreserveSince(previous, raw, now);
    PreservedRows(previous, raw, now);
    var k :| 0 <= k < |next| && SameIdentity(next[k], c);
    FindAtIndex(next, k, c);
    FindAtIndex(raw, k, c);
    SameFind(previous, next[k], c);
    SameFind(previous, raw[k], c);
    StepIsLogged(previous, next, now, k, RowOf(previous, c), RowOf(previous, c).since);
  }

  lemma {:induction false} ReplayGivesTheRow(first: seq<Component>, run: seq<Derivation>, n: nat, c: Component)
    requires n <= |run| && WellFormedRun(first, run) && PresentThroughout(first, run, c)
    requires RowOf(first, c).since > 0
    ensures Present(ListAfter(first, run, n), c)
    ensures
      var row, start := RowOf(ListAfter(first, run, n), c), RowOf(first, c);
      (row.status, row.since) == Replay(LogAfter(first, run, n), c.id, (start.status, start.since)) && row.since > 0
  {
    ListIsWellFormed(first, run, n, c);
    if n > 0 {
      ReplayGivesTheRow(first, run, n - 1, c);
      DerivationIsLogged(first, run, n, c);
      var start := RowOf(first, c);
      ReplayOfConcatenation(LogAfter(first, run, n - 1),
                            EventsOf(ListAfter(first, run, n - 1), ListAfter(first, run, n), run[n - 1].now), c.id,
                            (start.status, start.since));
    }
  }

  lemma DerivationIsLogged(first: seq<Component>, run: seq<Derivation>, n: nat, c: Component)
    requires 0 < n <= |run| && WellFormedRun(first, run) && PresentThroughout(first, run, c)
    requires Present(ListAfter(first, run, n - 1), c) && RowOf(ListAfter(first, run, n - 1), c).since > 0
    ensures Present(ListAfter(first, run, n), c)
    ensures
      var before, row := RowOf(ListAfter(first, run, n - 1), c), RowOf(ListAfter(first, run, n), c);
      && (row.status, row.since) ==
           Replay(EventsOf(ListAfter(first, run, n - 1), ListAfter(first, run, n), run[n - 1].now), c.id,
                  (before.status, before.since))
      && row.since > 0
  {
    ListIsWellFormed(first, run, n - 1, c);
    ListIsWellFormed(first, run, n, c);
    StampAgreesWithLog(ListAfter(first, run, n - 1), run[n - 1].rows, run[n - 1].now, c);
  }

  lemma DerivedStatusIsShown(first: seq<Component>, run: seq<Derivation>, n: nat, c: Component)
    requires 0 < n <= |run| && WellFormedRun(first, run) && PresentThroughout(first, run, c)
    ensures Present(ListAfter(first, run, n), c)
    ensures RowOf(ListAfter(first, run, n), c).status == RowOf(run[n - 1].rows, c).status
  {
    var raw := run[n - 1].rows;
    ListIsWellFormed(first, run, n, c);
    var k :| 0 <= k < |raw| && SameIdentity(raw[k], c);
    FindAtIndex(raw, k, c);
    FindAtIndex(ListAfter(first, run, n), k, c);
    OnlyStampsAreKept(ListAfter(first, run, n - 1), raw, run[n - 1].now, k);
  }

  /**
   * Over any run of lists with unique ids, replaying the log over the first list gives the status
   * derived last for every object present throughout, and its stamp is the time of its last event, or the first stamp.
   */
  lemma LogReplaysToTheStatus(first: seq<Component>, run: seq<Derivation>, n: nat, c: Component)
    requires n <= |run| && WellFormedRun(first, run) && PresentThroughout(first, run, c)
    requires RowOf(first, c).since > 0
    ensures Present(ListAfter(first, run, n), c)
    ensures
      var row, start := RowOf(ListAfter(first, run, n), c), RowOf(first, c);
      && (n > 0 ==> row.status == RowOf(run[n - 1].rows, c).status) && row.since > 0
      && Replay(LogAfter(first, run, n), c.id, (start.status, start.since)) == (row.status, row.since)
  {
    ReplayGivesTheRow(first, run, n, c);
    if n > 0 { DerivedStatusIsShown(first, run, n, c); }
  }
}
