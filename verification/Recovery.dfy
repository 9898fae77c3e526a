/** The stream recovery client: which notifications force a refetch, and which late responses are refused. */
module Recovery {
  import opened Strings

  datatype Verdict = Hint | Ignore | Resync

  /** The parts of a stream envelope that the client reads. */
  datatype Envelope = Envelope(streamId: string, sequence: string, kind: string, resource: string)

  const LAST_SEQUENCE: nat := 18446744073709551615

  /** 1 to 20 digits that denote a number in 1..2^64-1; None is a malformed sequence. */
  function ParseSequence(text: string): Option<nat> {
    if 1 <= |text| <= 20 && AllDigits(text) && 1 <= DecimalValue(text) <= LAST_SEQUENCE
    then Some(DecimalValue(text)) else None
  }

  // ---- the tracker ----

  datatype Position = Position(stream: string, sequence: nat)

  const START := Position("", 0)

  function Advance(p: Position, e: Envelope): (Position, Verdict) {
    match ParseSequence(e.sequence)
    case None => (p, Resync)
    case Some(n) =>
      if p.stream != e.streamId then (Position(e.streamId, n), Resync)
      else if n <= p.sequence then (p, Ignore)
      else
        var next := p.(sequence := n);
        if n != p.sequence + 1 || e.kind == "resync.required" then (next, Resync)
        else if e.kind == "resource.changed" || e.kind == "state.coalesced" then (next, Hint)
        else (next, Ignore)
  }

  class StreamTracker {
    var stream: string
    var sequence: nat

    constructor ()
      ensures At() == START
    {
      stream, sequence := "", 0;
    }

    function At(): Position
      reads this
    {
      Position(stream, sequence)
    }

    method Accept(e: Envelope) returns (verdict: Verdict)
      modifies this
      ensures (At(), verdict) == Advance(old(At()), e)
    {
      var parsed := ParseSequence(e.sequence);
      if parsed.None? { return Resync; }
      var n := parsed.value;
      if stream != e.streamId {
        stream := e.streamId;
        sequence := n;
        return Resync;
      }
      if n <= sequence { return Ignore; }
      var gap := n != sequence + 1;
      sequence := n;
      if gap || e.kind == "resync.required" { return Resync; }
      if e.kind == "resource.changed" || e.kind == "state.coalesced" { return Hint; }
      return Ignore;
    }
  }

  function PositionAfter(envelopes: seq<Envelope>, n: nat): Position
    requires n <= |envelopes|
  {
    if n == 0 then START else Advance(PositionAfter(envelopes, n - 1), envelopes[n - 1]).0
  }

  function VerdictAt(envelopes: seq<Envelope>, i: nat): Verdict
    requires i < |envelopes|
  {
    Advance(PositionAfter(envelopes, i), envelopes[i]).1
  }

  // ---- which envelope covers an event ----

  /** Envelope `i` was taken exactly in turn as event `k` of its stream. */
  predicate TakenInTurn(envelopes: seq<Envelope>, i: nat, stream: string, k: nat)
    requires i < |envelopes| && k >= 1
  {
    && PositionAfter(envelopes, i) == Position(stream, k - 1)
    && envelopes[i].streamId == stream && ParseSequence(envelopes[i].sequence) == Some(k)
  }

  /** Envelope `i` made the client refetch everything at an event number not below `k`. */
  predicate Resynced(envelopes: seq<Envelope>, i: nat, stream: string, k: nat)
    requires i < |envelopes|
  {
    && VerdictAt(envelopes, i) == Resync
    && envelopes[i].streamId == stream
    && ParseSequence(envelopes[i].sequence).Some? && ParseSequence(envelopes[i].sequence).value >= k
  }

  predicate Covered(envelopes: seq<Envelope>, n: nat, stream: string, k: nat)
    requires n <= |envelopes| && k >= 1
  {
    exists i: nat :: i < n && (TakenInTurn(envelopes, i, stream, k) || Resynced(envelopes, i, stream, k))
  }

  /**
   * Under any loss, duplication, reordering and stream switching, every event numbered at or below the
   * tracked sequence was taken in turn or covered by a resync at or after it.
   */
  lemma {:induction false} NoEventIsSkipped(envelopes: seq<Envelope>, n: nat, k: nat)
    requires n <= |envelopes| && 1 <= k <= PositionAfter(envelopes, n).sequence
    ensures Covered(envelopes, n, PositionAfter(envelopes, n).stream, k)
  {
    var before, now := PositionAfter(envelopes, n - 1), PositionAfter(envelopes, n);
    if now.stream == before.stream && k <= before.sequence {
      NoEventIsSkipped(envelopes, n - 1, k);
      var i: nat :| i < n - 1 && (TakenInTurn(envelopes, i, now.stream, k) || Resynced(envelopes, i, now.stream, k));
    } else {
      assert TakenInTurn(envelopes, n - 1, now.stream, k) || Resynced(envelopes, n - 1, now.stream, k);
    }
  }

  // ---- a client that refetches one resource on a hint and everything on a resync ----

  /** What the service published as event `number` of `stream`. */
  datatype Published = Published(kind: string, resource: string)
  type History = (string, nat) -> Published

  /** The service's own request to refetch everything: it invalidates every copy. */
  predicate InvalidatesAll(p: Published) { p.kind == "resync.required" }

  predicate ChangesResource(p: Published) { p.kind == "resource.changed" || p.kind == "state.coalesced" }

  /** Every well-formed envelope reports its event as published; delivery order and loss are arbitrary. */
  predicate Authentic(envelopes: seq<Envelope>, h: History) {
    forall i :: 0 <= i < |envelopes| && ParseSequence(envelopes[i].sequence).Some? ==>
      var published := h(envelopes[i].streamId, ParseSequence(envelopes[i].sequence).value);
      envelopes[i].kind == published.kind && envelopes[i].resource == published.resource
  }

  /**
   * How far the client's copies reach on the tracked stream: all of them to `floor`, single resources to
   * their entry. A copy fetched on an envelope reflects at least the event that envelope reports.
   */
  datatype Copies = Copies(floor: nat, newer: map<string, nat>) {
    function Reach(resource: string): nat {
      if resource in newer && newer[resource] > floor then newer[resource] else floor
    }
  }

  function CopiesAfter(envelopes: seq<Envelope>, n: nat): Copies
    requires n <= |envelopes|
  {
    if n == 0 then Copies(0, map[])
    else
      var copies, e := CopiesAfter(envelopes, n - 1), envelopes[n - 1];
      var number := ParseSequence(e.sequence);
      match VerdictAt(envelopes, n - 1)
      case Ignore => copies
      case Hint => if number.Some? then copies.(newer := copies.newer[e.resource := number.value]) else copies
      case Resync => if number.Some? then Copies(number.value, map[]) else copies
  }

  /** The event is news about this resource. */
  predicate Concerns(p: Published, resource: string) {
    InvalidatesAll(p) || (ChangesResource(p) && p.resource == resource)
  }

  ghost predicate UpToDate(envelopes: seq<Envelope>, n: nat, h: History)
    requires n <= |envelopes|
  {
    var p := PositionAfter(envelopes, n);
    forall k, resource :: 1 <= k <= p.sequence && Concerns(h(p.stream, k), resource) ==>
      CopiesAfter(envelopes, n).Reach(resource) >= k
  }

  /**
   * The refetching client misses nothing: each change up to the tracked sequence is in its copy, and each
   * request of the service to refetch everything is met by every copy.
   */
  lemma {:induction false} NoChangeIsMissed(envelopes: seq<Envelope>, n: nat, h: History)
    requires n <= |envelopes| && Authentic(envelopes, h)
    ensures UpToDate(envelopes, n, h)
    ensures CopiesAfter(envelopes, n).floor <= PositionAfter(envelopes, n).sequence
    ensures forall resource :: resource in CopiesAfter(envelopes, n).newer ==>
      CopiesAfter(envelopes, n).newer[resource] <= PositionAfter(envelopes, n).sequence
  {
    if n > 0 {
      NoChangeIsMissed(envelopes, n - 1, h);
      var before, now, e := PositionAfter(envelopes, n - 1), PositionAfter(envelopes, n), envelopes[n - 1];
      var was, copies := CopiesAfter(envelopes, n - 1), CopiesAfter(envelopes, n);
      forall k, resource | 1 <= k <= now.sequence && Concerns(h(now.stream, k), resource)
        ensures copies.Reach(resource) >= k
      {
        if VerdictAt(envelopes, n - 1) == Resync {
          if ParseSequence(e.sequence).None? { assert was.Reach(resource) >= k; }
        } else if k <= before.sequence {
          assert was.Reach(resource) >= k;
          assert copies.Reach(resource) >= was.Reach(resource);
        }
      }
    }
  }

  // ---- when a resync is not needed ----

  /**
   * Within a stream the tracked sequence never moves back. A malformed envelope moves nothing and forces a
   * full refetch; a repeated or late one moves nothing and is ignored.
   */
  lemma AStreamNeverMovesBack(p: Position, e: Envelope)
    ensures
      var (next, verdict) := Advance(p, e);
      var number := ParseSequence(e.sequence);
      && (next.stream == p.stream ==> p.sequence <= next.sequence)
      && (number.None? ==> next == p && verdict == Resync)
      && (number.Some? ==> next.stream == e.streamId)
      && (number.Some? ==> (next == p <==> e.streamId == p.stream && number.value <= p.sequence))
      && (number.Some? && next == p ==> verdict == Ignore)
      && (number.Some? && next != p ==> next.sequence == number.value)
  {
  }

  /**
   * What an envelope costs: everything on a new stream, after a gap or at the service's request; one resource for a
   * change taken in turn; nothing for anything else.
   */
  lemma VerdictExactlyWhen(p: Position, e: Envelope, number: nat)
    requires ParseSequence(e.sequence) == Some(number)
    ensures
      var verdict := Advance(p, e).1;
      var inTurn := e.streamId == p.stream && number == p.sequence + 1;
      var late := e.streamId == p.stream && number <= p.sequence;
      && (verdict == Resync <==>
            e.streamId != p.stream || number > p.sequence + 1 || (inTurn && e.kind == "resync.required"))
      && (verdict == Hint <==> inTurn && e.kind in {"resource.changed", "state.coalesced"})
      && (late ==> verdict == Ignore)
  {
    assert "resync.required"[3] != "resource.changed"[3] && "resync.required"[0] != "state.coalesced"[0];
  }

  /** Every number from 1 to 2^64-1 is read back from its decimal text, and no other number is taken. */
  lemma SequenceRoundTrip(n: nat)
    ensures ParseSequence(Decimal(n)) == if 1 <= n <= 18_446_744_073_709_551_615 then Some(n) else None
  {
    if n <= LAST_SEQUENCE {
      PowersMultiply(4, 4);
      PowersMultiply(8, 2);
      PowersMultiply(10, 10);
      DecimalLength(n, 20);
    }
  }

  /** Envelope `i` is event `first + i` of the stream, without a resync request. */
  predicate InOrder(envelopes: seq<Envelope>, stream: string, first: nat) {
    forall i :: 0 <= i < |envelopes| ==>
      && envelopes[i].streamId == stream && ParseSequence(envelopes[i].sequence) == Some(first + i)
      && envelopes[i].kind != "resync.required"
  }

  /**
   * In-order delivery of a non-empty stream costs one full refetch, on its first envelope; after that
   * the verdict is a hint exactly on the events that change a resource.
   */
  lemma {:induction false} OrderlyDeliveryResyncsOnce(envelopes: seq<Envelope>, stream: string, first: nat, i: nat)
    requires stream != "" && first >= 1 && i < |envelopes| && InOrder(envelopes, stream, first)
    ensures VerdictAt(envelopes, i) == Resync <==> i == 0
    ensures i > 0 ==>
      (VerdictAt(envelopes, i) == Hint
       <==> envelopes[i].kind == "resource.changed" || envelopes[i].kind == "state.coalesced")
    ensures PositionAfter(envelopes, i + 1) == Position(stream, first + i)
  {
    if i > 0 { OrderlyDeliveryResyncsOnce(envelopes, stream, first, i - 1); }
  }

  // ---- late responses ----

  datatype Ticket = Ticket(context: string, revision: nat)

  const FIRST_FENCE := Ticket("", 0)

  datatype FenceUse = BeginFor(context: string) | ResetAll

  /** Every use moves the fence on; a begin hands the new fence out as its ticket. */
  function FenceStep(fence: Ticket, use: FenceUse): Ticket {
    match use
    case BeginFor(context) => Ticket(context, fence.revision + 1)
    case ResetAll => Ticket("", fence.revision + 1)
  }

  /** The fence after the first `n` uses. */
  function FenceAfter(uses: seq<FenceUse>, n: nat): Ticket
    requires n <= |uses|
  {
    if n == 0 then FIRST_FENCE else FenceStep(FenceAfter(uses, n - 1), uses[n - 1])
  }

  lemma {:induction false} RevisionCountsUses(uses: seq<FenceUse>, n: nat)
    requires n <= |uses|
    ensures FenceAfter(uses, n).revision == n
  {
    if n > 0 { RevisionCountsUses(uses, n - 1); }
  }

  /**
   * The ticket handed out by use `i` is the fence exactly until the next begin or reset, however often contexts repeat.
   */
  lemma OnlyTheLatestTicketIsAccepted(uses: seq<FenceUse>, i: nat, n: nat)
    requires i < n <= |uses| && uses[i].BeginFor?
    ensures FenceAfter(uses, n) == FenceAfter(uses, i + 1) <==> n == i + 1
  {
    RevisionCountsUses(uses, i + 1);
    RevisionCountsUses(uses, n);
  }

  lemma {:induction false} EarlierFencesStay(uses: seq<FenceUse>, use: FenceUse, n: nat)
    requires n <= |uses|
    ensures FenceAfter(uses + [use], n) == FenceAfter(uses, n)
  {
    if n > 0 { EarlierFencesStay(uses, use, n - 1); }
  }

  class ResponseFence {
    var context: string
    var revision: nat
    ghost var uses: seq<FenceUse>

    ghost predicate Valid()
      reads this
    {
      Ticket(context, revision) == FenceAfter(uses, |uses|)
    }

    constructor ()
      ensures Valid() && uses == []
    {
      context, revision, uses := "", 0, [];
    }

    method Begin(next: string) returns (ticket: Ticket)
      requires Valid()
      modifies this
      ensures Valid() && uses == old(uses) + [BeginFor(next)]
      ensures ticket == FenceAfter(uses, |uses|)
    {
      EarlierFencesStay(uses, BeginFor(next), |uses|);
      context := next;
      revision := revision + 1;
      uses := uses + [BeginFor(next)];
      ticket := Ticket(context, revision);
    }

    method Reset()
      requires Valid()
      modifies this
      ensures Valid() && uses == old(uses) + [ResetAll]
    {
      EarlierFencesStay(uses, ResetAll, |uses|);
      context := "";
      revision := revision + 1;
      uses := uses + [ResetAll];
    }

    /** A response is accepted exactly if its ticket came from the last use; one handed out earlier never is. */
    method Accepts(ticket: Ticket) returns (accepted: bool)
      requires Valid()
      ensures accepted <==> ticket == FenceAfter(uses, |uses|)
      ensures forall i: nat :: i < |uses| && uses[i].BeginFor? && ticket == FenceAfter(uses, i + 1) ==>
        (accepted <==> i + 1 == |uses|)
    {
      accepted := ticket.context == context && ticket.revision == revision;
      forall i: nat | i < |uses| && uses[i].BeginFor? && ticket == FenceAfter(uses, i + 1)
        ensures accepted <==> i + 1 == |uses|
      {
        OnlyTheLatestTicketIsAccepted(uses, i, |uses|);
      }
    }
  }
}
