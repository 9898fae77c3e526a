/** Bounded OpenFlow snapshots: the byte budget, its binary search and later exports. */
module OpenFlow {
  import opened Strings
  import opened OpenFlowQuery

  const ROW_LIMIT: nat := 500
  const BYTE_LIMIT: nat := 256 * 1024
  const RESERVED: nat := 1024
  const TIMEOUT_MS := 5000
  const TTL_MS := 30_000

  datatype Flag = RowLimit | ByteLimit

  /** A flow row, known by its id and by the length of its JSON text. */
  datatype FlowRow = FlowRow(id: string, bytes: nat)

  /**
   * A captured snapshot. `fixedBytes` is the length of the serialized text apart from the rows, the
   * truncation flags and the parts that depend on the export itself.
   */
  datatype FlowSnapshot = FlowSnapshot(query: FlowQuery, observedAt: int, elapsedMs: int, rows: seq<FlowRow>,
                                       matchedRows: nat, truncation: seq<Flag>, providerDegraded: bool,
                                       reviewCase: ReviewCase, fixedBytes: nat)

  const STALE_CASE_MS := 45_000

  /** When the snapshot was taken, which its id records: a stale review case is stamped 45 s earlier. */
  function CapturedAt(s: FlowSnapshot): int {
    s.observedAt + (if s.reviewCase.StaleCase? then STALE_CASE_MS else 0)
  }

  // ---- the size of the serialized text ----

  function RowsBytes(rows: seq<FlowRow>): nat {
    if rows == [] then 0 else RowsBytes(rows[..|rows| - 1]) + rows[|rows| - 1].bytes
  }

  /** The commas between the elements of a JSON array. */
  function Commas(n: nat): nat { if n == 0 then 0 else n - 1 }

  function FlagBytes(flags: seq<Flag>): nat {
    if flags == [] then 0
    else FlagBytes(flags[..|flags| - 1]) + (if flags[|flags| - 1].RowLimit? then 11 else 12)
  }

  /** `toISOString` prints 24 characters for years 0 to 9999 and 27 otherwise. */
  function IsoBytes(now: int): nat {
    if -62_167_219_200_000 <= now <= 253_402_300_799_999 then 24 else 27
  }

  datatype FlowFreshness = Stale | Fresh

  function Freshness(s: FlowSnapshot, now: int): FlowFreshness {
    if now - s.observedAt >= TTL_MS then Stale else Fresh
  }

  function FreshnessBytes(f: FlowFreshness): nat { if f.Stale? then |"Stale"| else |"Fresh"| }

  function CoverageBytes(s: FlowSnapshot, degraded: bool, unavailable: bool): nat {
    if s.truncation != [] || s.providerDegraded || degraded || unavailable
    then |"Partial"| else |"Complete for captured query"|
  }

  /** The length of an export with the given provider state. */
  function ExportBytes(s: FlowSnapshot, now: int, degraded: bool, unavailable: bool): nat {
    s.fixedBytes + IsoBytes(now) + FreshnessBytes(Freshness(s, now)) + CoverageBytes(s, degraded, unavailable)
    + BoolBytes(degraded) + BoolBytes(unavailable)
    + RowsBytes(s.rows) + Commas(|s.rows|) + FlagBytes(s.truncation) + Commas(|s.truncation|)
  }

  function OutputBytes(s: FlowSnapshot, now: int): nat {
    ExportBytes(s, now, false, false)
  }

  predicate Fits(s: FlowSnapshot, now: int) {
    OutputBytes(s, now) <= BYTE_LIMIT - RESERVED
  }

  lemma {:induction false} FlagBytesBound(flags: seq<Flag>)
    ensures FlagBytes(flags) <= 12 * |flags|
  {
    if flags != [] { FlagBytesBound(flags[..|flags| - 1]); }
  }

  // ---- what the bounded snapshot should be ----

  function Prefix(rows: seq<FlowRow>, n: nat): seq<FlowRow> { if n < |rows| then rows[..n] else rows }

  function WithFlag(flags: seq<Flag>, flag: Flag): seq<Flag> { if flag in flags then flags else flags + [flag] }

  /** The snapshot after the row limit. */
  function Capped(input: FlowSnapshot): FlowSnapshot {
    input.(rows := Prefix(input.rows, ROW_LIMIT),
           truncation := if |input.rows| > ROW_LIMIT then WithFlag(input.truncation, RowLimit) else input.truncation)
  }

  /** The capped snapshot marked as cut by bytes, with only its first `n` rows. */
  function Cut(input: FlowSnapshot, n: nat): FlowSnapshot {
    var capped := Capped(input);
    capped.(rows := Prefix(capped.rows, n), truncation := WithFlag(capped.truncation, ByteLimit))
  }

  /** `n` is the longest prefix of the capped rows that fits, or 0 when not even the empty one does. */
  predicate Longest(input: FlowSnapshot, now: int, n: nat) {
    && n <= |Capped(input).rows|
    && (n > 0 ==> Fits(Cut(input, n), now))
    && forall m :: n < m <= |Capped(input).rows| ==> !Fits(Cut(input, m), now)
  }

  ghost predicate Bounded(input: FlowSnapshot, now: int, result: FlowSnapshot) {
    if Fits(Capped(input), now) then result == Capped(input)
    else exists n: nat :: Longest(input, now, n) && result == Cut(input, n)
  }

  lemma {:induction false} LongerPrefixesAreLarger(rows: seq<FlowRow>, a: nat, b: nat)
    requires a <= b <= |rows|
    ensures RowsBytes(rows[..a]) + Commas(a) <= RowsBytes(rows[..b]) + Commas(b)
  {
    if a < b {
      LongerPrefixesAreLarger(rows, a, b - 1);
      assert rows[..b][..b - 1] == rows[..b - 1];
    }
  }

  lemma FittingIsDownwardClosed(input: FlowSnapshot, now: int, a: nat, b: nat)
    requires a <= b <= |Capped(input).rows| && Fits(Cut(input, b), now)
    ensures Fits(Cut(input, a), now)
  {
    var rows := Capped(input).rows;
    LongerPrefixesAreLarger(rows, a, b);
    assert Prefix(rows, a) == rows[..a] && Prefix(rows, b) == rows[..b];
  }

  /** The row limit, then the binary search for the longest prefix inside the byte budget. */
  method BoundFlowSnapshot(input: FlowSnapshot, now: int) returns (snapshot: FlowSnapshot)
    ensures Bounded(input, now, snapshot)
  {
    snapshot := input.(rows := Prefix(input.rows, ROW_LIMIT));
    if |input.rows| > ROW_LIMIT && RowLimit !in snapshot.truncation {
      snapshot := snapshot.(truncation := snapshot.truncation + [RowLimit]);
    }
    assert snapshot == Capped(input);
    if OutputBytes(snapshot, now) > BYTE_LIMIT - RESERVED {
      if ByteLimit !in snapshot.truncation {
        snapshot := snapshot.(truncation := snapshot.truncation + [ByteLimit]);
      }
      var cappedRows := snapshot.rows;
      var low, high := 0, |cappedRows|;
      while low < high
        invariant 0 <= low <= high <= |cappedRows|
        invariant snapshot == Cut(input, 0).(rows := snapshot.rows)
        invariant low > 0 ==> Fits(Cut(input, low), now)
        invariant forall m :: high < m <= |cappedRows| ==> !Fits(Cut(input, m), now)
      {
        var mid := (low + high + 1) / 2;
        snapshot := snapshot.(rows := Prefix(cappedRows, mid));
        assert snapshot == Cut(input, mid);
        if OutputBytes(snapshot, now) <= BYTE_LIMIT - RESERVED {
          low := mid;
        } else {
          forall m | mid - 1 < m <= |cappedRows| ensures !Fits(Cut(input, m), now) {
            if Fits(Cut(input, m), now) { FittingIsDownwardClosed(input, now, mid, m); }
          }
          high := mid - 1;
        }
      }
      snapshot := snapshot.(rows := Prefix(cappedRows, low));
      assert snapshot == Cut(input, low) && Longest(input, now, low);
    }
  }

  /** The largest fitting prefix at or below `n`, found by counting down. */
  function LongestFrom(input: FlowSnapshot, now: int, n: nat): (longest: nat)
    requires n <= |Capped(input).rows|
    ensures longest <= n && (longest > 0 ==> Fits(Cut(input, longest), now))
    ensures forall m :: longest < m <= n ==> !Fits(Cut(input, m), now)
  {
    if n == 0 || Fits(Cut(input, n), now) then n else LongestFrom(input, now, n - 1)
  }

  /** The bounded snapshot as a value, for callers that compute with it. */
  function Bound(input: FlowSnapshot, now: int): (result: FlowSnapshot)
    ensures Bounded(input, now, result)
  {
    if Fits(Capped(input), now) then Capped(input)
    else
      var n := LongestFrom(input, now, |Capped(input).rows|);
      assert Longest(input, now, n);
      Cut(input, n)
  }

  // ---- consequences for the caller ----

  /** The result keeps the first rows of the input, at most 500 of them, and nothing else of the input changes. */
  lemma ResultIsAPrefix(input: FlowSnapshot, now: int, result: FlowSnapshot)
    requires Bounded(input, now, result)
    ensures |result.rows| <= ROW_LIMIT && result.rows <= input.rows
    ensures result == input.(rows := result.rows, truncation := result.truncation)
    ensures input.truncation <= result.truncation
    ensures |result.rows| < |input.rows| ==> RowLimit in result.truncation || ByteLimit in result.truncation
  {
  }

  /** The first 500 rows, with the row-limit flag if that leaves any out. */
  function FirstRows(input: FlowSnapshot): FlowSnapshot {
    if |input.rows| <= 500 then input
    else
      var flags := input.truncation;
      input.(rows := input.rows[..500], truncation := if RowLimit in flags then flags else flags + [RowLimit])
  }

  lemma CappedIsFirstRows(input: FlowSnapshot)
    ensures Capped(input) == FirstRows(input)
  {
  }

  lemma CutRows(input: FlowSnapshot, kept: nat, k: nat)
    requires kept <= k <= |Capped(input).rows|
    ensures |Cut(input, kept).rows| == kept && Cut(input, kept).rows == Capped(input).rows[..kept]
    ensures Cut(input, k) == Cut(input, kept).(rows := Capped(input).rows[..k])
  {
    assert Capped(input).rows == Capped(input).rows[..|Capped(input).rows|];
  }

  lemma CutIsLongest(input: FlowSnapshot, now: int, kept: nat)
    requires Longest(input, now, kept)
    ensures
      var result, rows := Cut(input, kept), Capped(input).rows;
      forall k :: |result.rows| < k <= |rows| ==> OutputBytes(result.(rows := rows[..k]), now) > BYTE_LIMIT - RESERVED
  {
    var result, rows := Cut(input, kept), Capped(input).rows;
    CutRows(input, kept, kept);
    forall k | kept < k <= |rows| ensures OutputBytes(result.(rows := rows[..k]), now) > BYTE_LIMIT - RESERVED {
      CutRows(input, kept, k);
      assert !Fits(Cut(input, k), now);
    }
  }

  /**
   * The first 500 rows are kept whenever they fit the budget; otherwise as many of them as fit with the flag set,
   * and not one row fewer. Each flag is set exactly for its own reason.
   */
  lemma LongestPrefixIsKept(input: FlowSnapshot, now: int, result: FlowSnapshot)
    requires Bounded(input, now, result) && ByteLimit !in input.truncation
    ensures
      var uncut := FirstRows(input);
      && result.rows <= uncut.rows
      && (RowLimit in result.truncation <==> RowLimit in input.truncation || |input.rows| > 500)
      && (ByteLimit in result.truncation <==> OutputBytes(uncut, now) > 262_144 - 1024)
      && (ByteLimit !in result.truncation ==> result.rows == uncut.rows)
      && (ByteLimit in result.truncation ==>
            forall k :: |result.rows| < k <= |uncut.rows| ==>
              OutputBytes(result.(rows := uncut.rows[..k]), now) > 262_144 - 1024)
  {
    CappedIsFirstRows(input);
    if !Fits(Capped(input), now) {
      var kept: nat :| Longest(input, now, kept) && result == Cut(input, kept);
      CutRows(input, kept, kept);
      CutIsLongest(input, now, kept);
    }
  }

  /** The specification has exactly one result. */
  lemma BoundedIsAFunction(input: FlowSnapshot, now: int, a: FlowSnapshot, b: FlowSnapshot)
    requires Bounded(input, now, a) && Bounded(input, now, b)
    ensures a == b
  {
    if !Fits(Capped(input), now) {
      var n: nat :| Longest(input, now, n) && a == Cut(input, n);
      var m: nat :| Longest(input, now, m) && b == Cut(input, m);
      assert n == m;
    }
  }

  /** After the byte branch the result fits exactly when the flagged metadata without rows fits. */
  lemma ResultFitsWhenMetadataFits(input: FlowSnapshot, now: int, result: FlowSnapshot)
    requires Bounded(input, now, result)
    ensures Fits(result, now) <==> Fits(Capped(input), now) || Fits(Cut(input, 0), now)
  {
    if !Fits(Capped(input), now) {
      var n: nat :| Longest(input, now, n) && result == Cut(input, n);
      if n > 0 { FittingIsDownwardClosed(input, now, 0, n); }
    }
  }

  /** A snapshot with at most two flags and little other metadata always fits once it is bounded. */
  lemma SmallMetadataFits(input: FlowSnapshot, now: int, result: FlowSnapshot)
    requires Bounded(input, now, result) && input.fixedBytes <= METADATA_LIMIT && |input.truncation| <= 2
    ensures Fits(result, now)
  {
    var empty := Cut(input, 0);
    FlagBytesBound(empty.truncation);
    assert empty.rows == [];
    ResultFitsWhenMetadataFits(input, now, result);
  }

  lemma CutOfCut(input: FlowSnapshot, n: nat, m: nat)
    requires m <= n <= |Capped(input).rows|
    ensures Capped(Cut(input, n)) == Cut(input, n) && Cut(Cut(input, n), m) == Cut(input, m)
  {
  }

  /** Bounding a bounded snapshot again at the same time changes nothing, even when nothing fits. */
  lemma BoundingIsIdempotent(input: FlowSnapshot, now: int, result: FlowSnapshot)
    requires Bounded(input, now, result)
    ensures Bounded(result, now, result)
  {
    if Fits(Capped(input), now) {
      assert Capped(result) == result;
    } else {
      var n: nat :| Longest(input, now, n) && result == Cut(input, n);
      CutOfCut(input, n, n);
      if !Fits(result, now) {
        assert n == 0;
        assert Cut(result, 0) == result && Longest(result, now, 0);
      }
    }
  }

  /**
   * Once the snapshot fits at capture, every later export fits the ceiling, whatever its time, freshness
   * and provider flags: it uses at most three bytes of the reserve, and none in a four-digit year.
   */
  lemma EveryLaterExportFits(s: FlowSnapshot, captured: int, now: int, degraded: bool, unavailable: bool)
    requires Fits(s, captured)
    ensures ExportBytes(s, now, degraded, unavailable) <= BYTE_LIMIT - RESERVED + 3
    ensures IsoBytes(now) == 24 ==> ExportBytes(s, now, degraded, unavailable) <= BYTE_LIMIT - RESERVED
  {
  }

  /** The size of a whole capped snapshot once it carries the byte-limit flag. */
  lemma FlaggedBytes(input: FlowSnapshot, now: int)
    ensures
      var capped := Capped(input);
      var flagged := OutputBytes(Cut(input, |capped.rows|), now);
      && (ByteLimit in capped.truncation ==> flagged == OutputBytes(capped, now))
      && (ByteLimit !in capped.truncation ==>
            var growth := if capped.truncation != [] then 13 else if input.providerDegraded then 12 else -8;
            flagged == OutputBytes(capped, now) + growth)
  {
    var capped := Capped(input);
    assert Prefix(capped.rows, |capped.rows|) == capped.rows;
    assert |"Complete for captured query"| == |"Partial"| + 20;
    if ByteLimit !in capped.truncation {
      assert (capped.truncation + [ByteLimit])[..|capped.truncation|] == capped.truncation;
    }
  }

  /**
   * A byte-limit flag does not mean that rows were dropped. The byte branch keeps every capped row exactly
   * when there are none, or when the flag is the first sign of incompleteness and so shortens the coverage
   * text by eight bytes more than it adds, which is enough.
   */
  lemma ByteLimitKeepsEveryRowExactlyWhen(input: FlowSnapshot, now: int, result: FlowSnapshot)
    requires Bounded(input, now, result) && !Fits(Capped(input), now)
    ensures
      var capped := Capped(input);
      result.rows == capped.rows <==>
        || capped.rows == []
        || (capped.truncation == [] && !input.providerDegraded && OutputBytes(capped, now) <= BYTE_LIMIT - RESERVED + 8)
  {
    var n: nat :| Longest(input, now, n) && result == Cut(input, n);
    FlaggedBytes(input, now);
    assert result.rows == Capped(input).rows <==> n == |Capped(input).rows|;
  }

  /** Such snapshots exist. */
  lemma ByteLimitMayDropNothing()
    ensures exists input: FlowSnapshot, now: int, result: FlowSnapshot ::
      Bounded(input, now, result) && input.rows != [] && result.rows == input.rows
      && ByteLimit in result.truncation && ByteLimit !in input.truncation
  {
    var query := FlowQuery("br-fabric", "all", "", "", "", "", "");
    var row := FlowRow("f", 100);
    var bare := FlowSnapshot(query, 0, 450, [row], 1, [], false, FreshCase, 0);
    assert RowsBytes([row]) == 100 by { assert [row][..0] == []; }
    assert FlagBytes([]) == 0 && |"Fresh"| == 5 && |"Complete for captured query"| == 27;
    var input := bare.(fixedBytes := BYTE_LIMIT - RESERVED + 1 - OutputBytes(bare, 0));
    assert Capped(input) == input;
    var result := Bound(input, 0);
    ByteLimitKeepsEveryRowExactlyWhen(input, 0, result);
    ResultIsAPrefix(input, 0, result);
    assert Bounded(input, 0, result);
  }

  // ---- pages ----

  const PAGE_ROWS: nat := 4

  function PageCount(rows: seq<FlowRow>): (n: nat)
    ensures n >= 1
  {
    if rows == [] then 1 else (|rows| + 3) / 4
  }

  function PageNumber(rows: seq<FlowRow>, requested: int): (page: nat)
    ensures 1 <= page <= PageCount(rows)
  {
    var atLeastOne := if requested < 1 then 1 else requested;
    if atLeastOne > PageCount(rows) then PageCount(rows) else atLeastOne
  }

  function Visible(rows: seq<FlowRow>, requested: int): seq<FlowRow> {
    var page := PageNumber(rows, requested);
    var from := (page - 1) * PAGE_ROWS;
    if from >= |rows| then [] else if from + PAGE_ROWS >= |rows| then rows[from..] else rows[from..from + PAGE_ROWS]
  }

  /** A page shows four rows, fewer only at the end; a requested page is shown if it exists, else the nearest one. */
  lemma PagesAreClamped(rows: seq<FlowRow>, requested: int)
    ensures 4 * (PageCount(rows) - 1) < |rows| <= 4 * PageCount(rows) || (rows == [] && PageCount(rows) == 1)
    ensures 1 <= requested <= PageCount(rows) ==> PageNumber(rows, requested) == requested
    ensures requested < 1 ==> PageNumber(rows, requested) == 1
    ensures requested > PageCount(rows) ==> PageNumber(rows, requested) == PageCount(rows)
    ensures |Visible(rows, requested)| == 4
      || (|Visible(rows, requested)| < 4 && PageNumber(rows, requested) == PageCount(rows))
  {
  }

  function PagesUpTo(rows: seq<FlowRow>, n: nat): seq<FlowRow> {
    if n == 0 then [] else PagesUpTo(rows, n - 1) + Visible(rows, n)
  }

  lemma {:induction false} PagesSoFar(rows: seq<FlowRow>, n: nat)
    requires n <= PageCount(rows)
    ensures PagesUpTo(rows, n) == Prefix(rows, n * PAGE_ROWS)
  {
    if n > 0 { PagesSoFar(rows, n - 1); }
  }

  /** Walking all pages shows every row exactly once and in order. */
  lemma PagesPartitionTheRows(rows: seq<FlowRow>)
    ensures PagesUpTo(rows, PageCount(rows)) == rows
  {
    PagesSoFar(rows, PageCount(rows));
  }
}
