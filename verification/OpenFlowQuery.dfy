/** OpenFlow queries: what a captured snapshot says about itself, and how long its text is. */
module OpenFlowQuery {
  import opened Strings

  datatype FlowQuery = FlowQuery(bridge: string, table: string, priority: string, inPort: string, match_: string,
                                 action: string, search: string)

  datatype ReviewCase = FreshCase | ExternalAuthority | StaleCase | TruncatedCase | EmptyCase
                      | ProviderUnavailableCase | PermissionDeniedCase | QueryTimeoutCase

  // ---- the catalog and the checks on a query ----

  /** A Bridge of the catalog; `bytes` is the length of its text in an export. */
  datatype FlowSource = FlowSource(bridge: string, available: bool, ports: seq<string>, bytes: nat)

  const SOURCES := [
    FlowSource("br-fabric", true, ["1", "12", "13"], 143),
    FlowSource("br-storage", true, ["7"], 134),
    FlowSource("br-offload", false, [], 115)]

  function SourceOf(bridge: string): Option<FlowSource> {
    if bridge == SOURCES[0].bridge then Some(SOURCES[0])
    else if bridge == SOURCES[1].bridge then Some(SOURCES[1])
    else if bridge == SOURCES[2].bridge then Some(SOURCES[2])
    else None
  }

  predicate VisibleText(text: string) {
    |text| <= 128 && forall i :: 0 <= i < |text| ==> text[i] as int >= 32 && text[i] as int != 127
  }

  /** `flowQueryErrors` finds nothing. */
  predicate ValidQuery(q: FlowQuery) {
    && SourceOf(q.bridge).Some?
    && q.table in {"all", "0", "10", "20", "30", "90"}
    && (q.priority == "" || (|q.priority| <= 5 && AllDigits(q.priority) && DecimalValue(q.priority) <= 65535))
    && (q.inPort == "" || q.inPort in SourceOf(q.bridge).value.ports)
    && VisibleText(q.match_) && VisibleText(q.action) && VisibleText(q.search)
  }

  // ---- the length of the text ----

  /** The text of each Bridge of the catalog in an export. */
  const FABRIC := "{\"bridge\":\"br-fabric\",\"datapath\":\"system\",\"protocol\":\"OpenFlow 1.5\","
                + "\"authority\":\"External controller\",\"available\":true,\"ports\":[\"1\",\"12\",\"13\"]}"
  const STORAGE := "{\"bridge\":\"br-storage\",\"datapath\":\"system\",\"protocol\":\"OpenFlow 1.3\","
                 + "\"authority\":\"External controller\",\"available\":true,\"ports\":[\"7\"]}"
  const OFFLOAD := "{\"bridge\":\"br-offload\",\"datapath\":\"netdev\",\"protocol\":\"Unknown\","
                 + "\"authority\":\"Unknown\",\"available\":false,\"ports\":[]}"

  lemma SourceLengths()
    ensures SOURCES[0].bytes == |FABRIC| && SOURCES[1].bytes == |STORAGE| && SOURCES[2].bytes == |OFFLOAD|
  {
  }

  /** An instant the host's clock can show; no other can be printed as a date. */
  type Instant = t: int | -8_640_000_000_000_000 <= t <= 8_640_000_000_000_000

  const MAX_ARRAY_LENGTH: nat := 0xFFFF_FFFF

  /** The UTF-8 bytes of a character in a JSON string. */
  function CharBytes(c: char): (n: nat)
    ensures n <= 6
  {
    var u := c as int;
    if c == '"' || c == '\\' || u in {8, 9, 10, 12, 13} then 2
    else if u < 0x20 then 6
    else if u < 0x80 then 1
    else if u < 0x800 then 2
    else if u < 0x10000 then 3
    else 4
  }

  function TextBytes(text: string): (n: nat)
    ensures n <= 6 * |text|
  {
    if text == "" then 0 else CharBytes(text[0]) + TextBytes(text[1..])
  }

  function IntBytes(n: int): nat { if n < 0 then 1 + |Decimal(-n)| else |Decimal(n)| }

  function BoolBytes(b: bool): nat { if b then 4 else 5 }

  function ReviewCaseBytes(r: ReviewCase): nat {
    match r
    case FreshCase => |"fresh"|
    case ExternalAuthority => |"external-authority"|
    case StaleCase => |"stale"|
    case TruncatedCase => |"truncated"|
    case EmptyCase => |"empty"|
    case ProviderUnavailableCase => |"provider-unavailable"|
    case PermissionDeniedCase => |"permission-denied"|
    case QueryTimeoutCase => |"query-timeout"|
  }

  function QueryBytes(q: FlowQuery): nat {
    TextBytes(q.bridge) + TextBytes(q.table) + TextBytes(q.priority) + TextBytes(q.inPort) + TextBytes(q.match_)
    + TextBytes(q.action) + TextBytes(q.search)
  }

  function SourceBytes(bridge: string): nat {
    if SourceOf(bridge).Some? then SourceOf(bridge).value.bytes else 0
  }

  /** The names, quotes, braces and constants of an export. */
  const HEAD := "{\"schema\":\"ovs-webui.openflow-snapshot.v1\",\"synthetic\":true,\"capability\":\"Observe\","
  const EXPORT := "\"exportedAt\":\"\",\"freshness\":\"\",\"coverage\":\"\","
  const SERVICE := "\"currentProviderDegraded\":,\"currentCollectionUnavailable\":,"
  const LIMITS := "\"limits\":{\"rows\":500,\"bytes\":262144,\"timeoutMs\":5000,\"ttlMs\":30000},"
  const QUERY := "\"snapshot\":{\"id\":\"ofs--\",\"query\":{\"bridge\":\"\",\"table\":\"\",\"priority\":\"\","
  const FILTERS := "\"inPort\":\"\",\"match\":\"\",\"action\":\"\",\"search\":\"\"},\"source\":,"
  const CAPTURE := "\"observedAt\":,\"elapsedMs\":,\"rows\":[],\"matchedRows\":,\"truncation\":[],"
  const TAIL := "\"providerDegraded\":,\"reviewCase\":\"\"}}"
  const FRAME_BYTES: nat := 489

  lemma FrameLength()
    ensures |HEAD| + |EXPORT| + |SERVICE| + |LIMITS| + |QUERY| + |FILTERS| + |CAPTURE| + |TAIL| == FRAME_BYTES
  {
  }

  /** The text that neither cutting rows nor a later export changes; the id of a snapshot repeats Bridge and time. */
  function MetadataBytes(q: FlowQuery, captured: int, observed: int, elapsed: int, matched: nat, degraded: bool,
                         r: ReviewCase): nat
  {
    FRAME_BYTES + TextBytes(q.bridge) + IntBytes(captured) + QueryBytes(q) + SourceBytes(q.bridge) + IntBytes(observed)
    + IntBytes(elapsed) + IntBytes(matched) + BoolBytes(degraded) + ReviewCaseBytes(r)
  }

  // ---- every part of it is short ----

  lemma LargePowers()
    ensures Power10(10) == 10_000_000_000 && Power10(17) == 100_000_000_000_000_000
  {
    assert Power10(4) == 10_000;
    PowersMultiply(4, 4);
    PowersMultiply(8, 2);
    PowersMultiply(8, 8);
    assert Power10(17) == 10 * Power10(16);
  }

  lemma IntegersAreShort(n: int)
    requires -100_000_000_000_000_000 < n < 100_000_000_000_000_000
    ensures IntBytes(n) <= 18
    ensures 0 <= n <= MAX_ARRAY_LENGTH ==> IntBytes(n) <= 10
  {
    LargePowers();
    DecimalLength(if n < 0 then -n else n, 17);
    if 0 <= n <= MAX_ARRAY_LENGTH { DecimalLength(n, 10); }
  }

  /** The checks on a query bound every text in it. */
  lemma ValidQueriesAreShort(q: FlowQuery)
    requires ValidQuery(q)
    ensures TextBytes(q.bridge) <= 60 && QueryBytes(q) <= 2_424 && SourceBytes(q.bridge) <= 143
  {
    assert |q.bridge| <= 10 && |q.table| <= 3 && |q.priority| <= 5 && |q.inPort| <= 2;
  }

  const METADATA_LIMIT: nat := 3_300

  /** Whatever a checked query, the clock and the number of rows, the fixed text of an export is short. */
  lemma MetadataIsShort(q: FlowQuery, captured: Instant, observed: int, elapsed: int, matched: nat, degraded: bool,
                        r: ReviewCase)
    requires ValidQuery(q) && matched <= MAX_ARRAY_LENGTH
    requires -100_000_000_000_000_000 < elapsed < 100_000_000_000_000_000
    requires -100_000_000_000_000_000 < observed < 100_000_000_000_000_000
    ensures MetadataBytes(q, captured, observed, elapsed, matched, degraded, r) <= METADATA_LIMIT
  {
    ValidQueriesAreShort(q);
    IntegersAreShort(captured);
    IntegersAreShort(observed);
    IntegersAreShort(elapsed);
    IntegersAreShort(matched);
    assert ReviewCaseBytes(r) <= 20;
  }
}
