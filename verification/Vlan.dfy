/** VLAN values: validation, comparison and the normalized native fields. */
module Vlan {
  import opened Strings

  datatype VlanMode = Access | Trunk | NativeTagged | OtherMode(name: string)
  datatype VlanValue = VlanValue(mode: VlanMode, tag: Option<real>, trunks: string)

  datatype VlanError =
    | UnsupportedMode | TagOutOfRange | TrunkKeepsTag | AccessKeepsTrunks | NotARangeList | RangeOutOfBounds

  predicate IsInteger(x: real) { x.Floor as real == x }

  /** Digits, or two numbers with a dash and optional white space between them. */
  predicate PieceShape(part: string) {
    var n := DigitPrefix(part);
    n > 0 && (n == |part| || DashedTail(part, n, DashAt(part, n)))
  }

  function DashAt(part: string, n: nat): nat
    requires n <= |part|
  {
    n + LeadingSpaces(part[n..])
  }

  /** A dash at `i`, then optional white space, then digits to the end. */
  predicate DashedTail(part: string, n: nat, i: nat)
    requires n <= i <= |part|
  {
    && i < |part| && part[i] == '-'
    && var last := part[i + 1..][LeadingSpaces(part[i + 1..])..];
    last != "" && AllDigits(last)
  }

  function DigitPrefix(s: string): (n: nat)
    ensures n <= |s| && AllDigits(s[..n]) && (n < |s| ==> !IsDigit(s[n]))
  {
    if s != "" && IsDigit(s[0]) then
      var n := DigitPrefix(s[1..]);
      assert s[..n + 1] == [s[0]] + s[1..][..n];
      n + 1
    else 0
  }

  /** The two ends read from a trimmed part; without a dash both are the same number. None is NaN. */
  datatype Ends = Ends(start: Option<nat>, end: Option<nat>)

  function RangeEnds(part: string): Ends {
    var numbers := Split(part, '-');
    var start := Number(numbers[0]);
    Ends(start, if |numbers| > 1 then Number(numbers[1]) else start)
  }

  /** A comparison with NaN is false, so only known ends can be out of bounds. */
  predicate OutOfBounds(e: Ends) {
    || (e.start.Some? && e.start.value < 1)
    || (e.end.Some? && e.end.value > 4094)
    || (e.start.Some? && e.end.Some? && e.start.value > e.end.value)
  }

  function ValidateVlan(value: VlanValue): Option<VlanError> {
    if value.mode.OtherMode? then Some(UnsupportedMode)
    else if !value.mode.Trunk? &&
            (value.tag.None? || !IsInteger(value.tag.value) || value.tag.value < 1.0 || value.tag.value > 4094.0) then
      Some(TagOutOfRange)
    else if value.mode.Trunk? && value.tag.Some? then Some(TrunkKeepsTag)
    else if value.mode.Access? then (if value.trunks != "" then Some(AccessKeepsTrunks) else None)
    else
      var parts := Split(value.trunks, ',');
      if Trim(value.trunks) == "" || exists i :: 0 <= i < |parts| && !PieceShape(Trim(parts[i])) then
        Some(NotARangeList)
      else if exists i :: 0 <= i < |parts| && OutOfBounds(RangeEnds(Trim(parts[i]))) then
        Some(RangeOutOfBounds)
      else None
  }

  predicate Valid(value: VlanValue) { ValidateVlan(value).None? }

  function Interval(lo: nat, hi: int): (ids: set<nat>)
    ensures forall id :: id in ids <==> lo <= id <= hi
    decreases hi - lo
  {
    if lo > hi then {} else Interval(lo, hi - 1) + {hi}
  }

  /** What `sameVlan` adds for one part: ranges wider than 4094 are skipped, ends are not bounded. */
  function LooseIds(part: string): set<nat> {
    var e := RangeEnds(Trim(part));
    if part == "" || e.start.None? || e.end.None? || e.end.value - e.start.value > 4094 then {}
    else Interval(e.start.value, e.end.value)
  }

  /** What `nativeVlanFields` adds for one part: only ranges inside 1..4094. */
  function NativeIds(part: string): set<nat> {
    var e := RangeEnds(Trim(part));
    if part == "" || e.start.None? || e.end.None? || OutOfBounds(e) then {}
    else Interval(e.start.value, e.end.value)
  }

  function Union(f: string -> set<nat>, parts: seq<string>): set<nat> {
    if parts == [] then {} else Union(f, parts[..|parts| - 1]) + f(parts[|parts| - 1])
  }

  /** The ids of a set in ascending order. */
  function Sorted(ids: set<nat>): (list: seq<nat>)
    ensures forall id :: id in list <==> id in ids
    ensures Ascending(list)
  {
    if ids == {} then []
    else
      var least := Least(ids);
      [least] + Sorted(ids - {least})
  }

  function Least(ids: set<nat>): (least: nat)
    requires ids != {}
    ensures least in ids && forall id :: id in ids ==> least <= id
  {
    HasLeast(ids);
    var least :| least in ids && forall id :: id in ids ==> least <= id;
    least
  }

  predicate Ascending(list: seq<nat>) {
    forall i, j :: 0 <= i < j < |list| ==> list[i] < list[j]
  }

  lemma HasLeast(ids: set<nat>)
    requires ids != {}
    ensures exists least :: least in ids && forall id :: id in ids ==> least <= id
  {
    var x :| x in ids;
    if ids - {x} == {} {
      assert ids == {x};
    } else {
      HasLeast(ids - {x});
      var m :| m in ids - {x} && forall id :: id in ids - {x} ==> m <= id;
      var least := if x < m then x else m;
      assert forall id :: id in ids ==> id == x || id in ids - {x};
      assert least in ids && forall id :: id in ids ==> least <= id;
    }
  }

  function Texts(list: seq<nat>): (texts: seq<string>)
    ensures |texts| == |list| && forall i :: 0 <= i < |list| ==> texts[i] == Decimal(list[i])
  {
    seq(|list|, i requires 0 <= i < |list| => Decimal(list[i]))
  }

  function Expand(trunks: string): string {
    Join(Texts(Sorted(Union(LooseIds, Split(trunks, ',')))), ",")
  }

  function SameVlan(a: VlanValue, b: VlanValue): bool {
    a.mode == b.mode && a.tag == b.tag && Expand(a.trunks) == Expand(b.trunks)
  }

  datatype NativeFields = NativeFields(mode: VlanMode, tag: Option<real>, trunks: seq<nat>)

  function Normalized(value: VlanValue): NativeFields {
    NativeFields(value.mode, value.tag, Sorted(Union(NativeIds, Split(value.trunks, ','))))
  }

  // ---- the two loops ----

  /** The loop inside `sameVlan`: it fills a set part by part and id by id. */
  method ExpandTrunks(trunks: string) returns (text: string)
    ensures text == Expand(trunks)
  {
    var ids: set<nat> := {};
    var parts := Split(trunks, ',');
    for k := 0 to |parts|
      invariant ids == Union(LooseIds, parts[..k])
    {
      assert parts[..k + 1][..k] == parts[..k];
      if parts[k] != "" {
        var ends := RangeEnds(Trim(parts[k]));
        if ends.start.Some? && ends.end.Some? && ends.end.value - ends.start.value <= 4094 {
          ids := AddRange(ids, ends.start.value, ends.end.value);
        }
      }
    }
    assert parts[..|parts|] == parts;
    text := Join(Texts(Sorted(ids)), ",");
  }

  /** `nativeVlanFields`: the same walk, skipping every part that is not a range inside 1..4094. */
  method NativeVlanFields(value: VlanValue) returns (fields: NativeFields)
    ensures fields == Normalized(value)
  {
    var ids: set<nat> := {};
    var parts := Split(value.trunks, ',');
    for k := 0 to |parts|
      invariant ids == Union(NativeIds, parts[..k])
    {
      assert parts[..k + 1][..k] == parts[..k];
      if parts[k] != "" {
        var ends := RangeEnds(Trim(parts[k]));
        if ends.start.Some? && ends.end.Some? && !OutOfBounds(ends) {
          ids := AddRange(ids, ends.start.value, ends.end.value);
        }
      }
    }
    assert parts[..|parts|] == parts;
    fields := NativeFields(value.mode, value.tag, Sorted(ids));
  }

  method AddRange(ids: set<nat>, start: nat, end: nat) returns (all: set<nat>)
    ensures all == ids + Interval(start, end)
  {
    all := ids;
    var id := start;
    while id <= end
      invariant start <= id && (id <= end + 1 || id == start)
      invariant all == ids + Interval(start, id - 1)
    {
      all := all + {id};
      id := id + 1;
    }
  }

  // ---- what validation buys ----

  predicate ShapedParts(parts: seq<string>) {
    forall i :: 0 <= i < |parts| ==> PieceShape(Trim(parts[i])) && !OutOfBounds(RangeEnds(Trim(parts[i])))
  }

  lemma TrimDigits(before: string, digits: string, after: string)
    requires digits != "" && AllDigits(digits)
    requires AllSpaces(before) && AllSpaces(after)
    ensures Trim(before + digits + after) == digits
  {
    SkipAll(before, digits + after);
    assert before + digits + after == before + (digits + after);
    DropAll(digits, after);
  }

  lemma {:induction false} SkipAll(spaces: string, rest: string)
    requires AllSpaces(spaces)
    requires rest != "" && !IsSpace(rest[0])
    ensures SkipSpaces(spaces + rest) == rest
  {
    if spaces == "" {
      assert spaces + rest == rest;
    } else {
      assert (spaces + rest)[1..] == spaces[1..] + rest;
      SkipAll(spaces[1..], rest);
    }
  }

  lemma {:induction false} DropAll(text: string, spaces: string)
    requires AllSpaces(spaces)
    requires text != "" && !IsSpace(text[|text| - 1])
    ensures DropTrailingSpaces(text + spaces) == text
  {
    if spaces == "" {
      assert text + spaces == text;
    } else {
      var init := spaces[..|spaces| - 1];
      assert (text + spaces)[..|text + spaces| - 1] == text + init;
      DropAll(text, init);
    }
  }

  lemma DigitsThenSpaces(s: string, n: nat)
    requires 0 < n <= |s| && AllDigits(s[..n]) && AllSpaces(s[n..])
    ensures Number(s).Some? && '-' !in s
  {
    TrimDigits("", s[..n], s[n..]);
    assert s == "" + s[..n] + s[n..];
  }

  lemma SpacesThenDigits(s: string, m: nat)
    requires m < |s| && AllSpaces(s[..m]) && AllDigits(s[m..])
    ensures Number(s).Some? && '-' !in s
  {
    TrimDigits(s[..m], s[m..], "");
    assert s == s[..m] + s[m..] + "";
  }

  lemma DashedEnds(part: string, i: nat)
    requires i < |part| && part[i] == '-' && '-' !in part[..i] && '-' !in part[i + 1..]
    ensures RangeEnds(part) == Ends(Number(part[..i]), Number(part[i + 1..]))
  {
    SplitAt(part, i, '-');
    SplitWhole(part[i + 1..], '-');
  }

  lemma BeforeDash(part: string, n: nat)
    requires 0 < n <= |part| && AllDigits(part[..n])
    ensures var i := DashAt(part, n); Number(part[..i]).Some? && '-' !in part[..i]
  {
    var i := DashAt(part, n);
    var s := part[..i];
    assert s[..n] == part[..n];
    assert s[n..] == part[n..][..LeadingSpaces(part[n..])];
    DigitsThenSpaces(s, n);
  }

  /** A part of the accepted shape always yields two numbers. */
  lemma ShapeHasEnds(part: string)
    requires PieceShape(part)
    ensures RangeEnds(part).start.Some? && RangeEnds(part).end.Some?
  {
    var n := DigitPrefix(part);
    if n == |part| {
      DigitsThenSpaces(part, n);
      SplitWhole(part, '-');
    } else {
      var i := DashAt(part, n);
      BeforeDash(part, n);
      SpacesThenDigits(part[i + 1..], LeadingSpaces(part[i + 1..]));
      DashedEnds(part, i);
    }
  }

  lemma ShapedPartIds(part: string)
    requires PieceShape(Trim(part)) && !OutOfBounds(RangeEnds(Trim(part)))
    ensures NativeIds(part) == LooseIds(part) != {}
    ensures forall id :: id in NativeIds(part) ==> 1 <= id <= 4094
  {
    ShapeHasEnds(Trim(part));
    assert RangeEnds(Trim(part)).start.value in NativeIds(part);
  }

  lemma {:induction false} ShapedUnion(parts: seq<string>)
    requires ShapedParts(parts)
    ensures Union(NativeIds, parts) == Union(LooseIds, parts)
    ensures parts != [] ==> Union(NativeIds, parts) != {}
    ensures forall id :: id in Union(NativeIds, parts) ==> 1 <= id <= 4094
  {
    if parts != [] {
      ShapedUnion(parts[..|parts| - 1]);
      ShapedPartIds(parts[|parts| - 1]);
    }
  }

  /** The ids of an accepted value lie in 1..4094, and only access mode has none. */
  lemma ValidIdsAreInRange(value: VlanValue)
    requires Valid(value)
    ensures Union(LooseIds, Split(value.trunks, ',')) == Union(NativeIds, Split(value.trunks, ','))
    ensures forall id :: id in Normalized(value).trunks ==> 1 <= id <= 4094
    ensures Normalized(value).trunks == [] <==> value.mode.Access?
    ensures if value.mode.Trunk? then value.tag.None?
            else value.tag.Some? && IsInteger(value.tag.value) && 1.0 <= value.tag.value <= 4094.0
  {
    var parts := Split(value.trunks, ',');
    if value.mode.Access? {
      assert parts == [""];
      assert Union(NativeIds, parts) == Union(NativeIds, []) + NativeIds("");
      assert Union(LooseIds, parts) == Union(LooseIds, []) + LooseIds("");
    } else {
      ShapedUnion(parts);
      var id :| id in Union(NativeIds, parts);
      assert id in Normalized(value).trunks;
    }
  }

  lemma {:induction false} SameListFromSameText(a: seq<nat>, b: seq<nat>)
    requires Join(Texts(a), ",") == Join(Texts(b), ",")
    ensures a == b
  {
    forall i | 0 <= i < |a| ensures ',' !in Texts(a)[i] { DecimalText(a[i]); }
    forall i | 0 <= i < |b| ensures ',' !in Texts(b)[i] { DecimalText(b[i]); }
    JoinedIsEmptyOnlyForNone(a);
    JoinedIsEmptyOnlyForNone(b);
    if a != [] && b != [] {
      SplitUndoesJoin(Texts(a), ',');
      SplitUndoesJoin(Texts(b), ',');
      assert Texts(a) == Texts(b);
      assert |a| == |b|;
      forall i | 0 <= i < |a| ensures a[i] == b[i] {
        assert Decimal(a[i]) == Texts(a)[i] == Texts(b)[i] == Decimal(b[i]);
      }
    }
  }

  lemma JoinedIsEmptyOnlyForNone(list: seq<nat>)
    ensures Join(Texts(list), ",") == "" <==> list == []
  {
    if list != [] { assert Texts(list)[0] == Decimal(list[0]); }
  }

  /** The change test and the native preview agree on every pair of accepted values. */
  lemma SameVlanAgreesWithNativeFields(a: VlanValue, b: VlanValue)
    requires Valid(a) && Valid(b)
    ensures SameVlan(a, b) <==> Normalized(a) == Normalized(b)
  {
    ValidIdsAreInRange(a);
    ValidIdsAreInRange(b);
    if SameVlan(a, b) {
      SameListFromSameText(Normalized(a).trunks, Normalized(b).trunks);
    }
  }

  lemma {:induction false} AscendingDeterminesList(a: seq<nat>, b: seq<nat>)
    requires Ascending(a) && Ascending(b)
    requires forall id :: id in a <==> id in b
    ensures a == b
  {
    assert (|b| > 0 ==> b[0] in a) && (|a| > 0 ==> a[0] in b);
    if a != [] && b != [] {
      assert a[0] in b;
      assert b[0] in a;
      assert a[0] == b[0];
      assert a == [a[0]] + a[1..] && b == [b[0]] + b[1..];
      assert a[0] !in a[1..] && b[0] !in b[1..];
      assert forall id :: id in a[1..] <==> id in a && id != a[0];
      assert forall id :: id in b[1..] <==> id in b && id != b[0];
      AscendingDeterminesList(a[1..], b[1..]);
      assert a == [a[0]] + a[1..] && b == [b[0]] + b[1..];
    }
  }

  // ---- which values are accepted ----

  /** Each mode accepts its own tag and its own trunks, and an unknown mode accepts nothing. */
  lemma AcceptanceByMode(value: VlanValue)
    ensures
      var tagged := value.tag.Some? && IsInteger(value.tag.value) && 1.0 <= value.tag.value <= 4094.0;
      Valid(value) <==>
        match value.mode
        case Access => tagged && value.trunks == ""
        case Trunk => value.tag.None? && Valid(VlanValue(Trunk, None, value.trunks))
        case NativeTagged => tagged && Valid(VlanValue(Trunk, None, value.trunks))
        case OtherMode(_) => false
  {
  }

  // ---- the round trip of the editor: ids and ranges joined with ", " ----

  /** A single id, or a range written with a dash and any white space around it. */
  datatype Range = Range(lo: nat, hi: nat, before: string, after: string) {
    predicate WellFormed() { 1 <= lo <= hi <= 4094 && AllSpaces(before) && AllSpaces(after) }

    function Text(): string {
      if lo == hi then Decimal(lo) else Decimal(lo) + before + "-" + after + Decimal(hi)
    }
  }

  function RangeTexts(list: seq<Range>): (texts: seq<string>)
    ensures |texts| == |list| && forall i :: 0 <= i < |list| ==> texts[i] == list[i].Text()
  {
    seq(|list|, i requires 0 <= i < |list| => list[i].Text())
  }

  function Spaced(texts: seq<string>): (spaced: seq<string>)
    ensures |spaced| == |texts| && forall i :: 0 <= i < |texts| ==> spaced[i] == " " + texts[i]
  {
    seq(|texts|, i requires 0 <= i < |texts| => " " + texts[i])
  }

  /** The parts seen after joining with comma and space and splitting at commas: all but the first keep a space. */
  lemma {:induction false} JoinedTextSplits(texts: seq<string>, lead: string)
    requires texts != [] && (lead == "" || lead == " ")
    requires forall i :: 0 <= i < |texts| ==> ',' !in texts[i]
    ensures Split(lead + Join(texts, ", "), ',') == [lead + texts[0]] + Spaced(texts[1..])
  {
    var head := lead + texts[0];
    if |texts| == 1 {
      SplitWhole(head, ',');
    } else {
      var tail := " " + Join(texts[1..], ", ");
      JoinedTextSplits(texts[1..], " ");
      SplitHead(head, tail, ',');
      assert lead + Join(texts, ", ") == head + [','] + tail;
      assert Spaced(texts[1..]) == [" " + texts[1..][0]] + Spaced(texts[1..][1..]);
    }
  }

  lemma {:induction false} WholeDigitPrefix(s: string, rest: string)
    requires AllDigits(s) && (rest != "" ==> !IsDigit(rest[0]))
    ensures DigitPrefix(s + rest) == |s|
  {
    if s == "" {
      assert s + rest == rest;
    } else {
      assert (s + rest)[1..] == s[1..] + rest;
      WholeDigitPrefix(s[1..], rest);
    }
  }

  lemma {:induction false} LeadingSpacesOf(spaces: string, rest: string)
    requires AllSpaces(spaces) && rest != "" && !IsSpace(rest[0])
    ensures LeadingSpaces(spaces + rest) == |spaces|
  {
    if spaces == "" {
      assert spaces + rest == rest;
    } else {
      assert (spaces + rest)[1..] == spaces[1..] + rest;
      LeadingSpacesOf(spaces[1..], rest);
    }
  }

  lemma IdIsRead(id: nat)
    ensures PieceShape(Decimal(id)) && RangeEnds(Decimal(id)) == Ends(Some(id), Some(id))
  {
    DecimalText(id);
    SplitWhole(Decimal(id), '-');
    WholeDigitPrefix(Decimal(id), "");
    assert Decimal(id) + "" == Decimal(id);
  }

  lemma DashAfterSpaces(part: string, lo: string, before: string, last: string)
    requires part == lo + (before + ("-" + last)) && AllSpaces(before)
    ensures DashAt(part, |lo|) == |lo| + |before|
    ensures part[|lo| + |before|] == '-' && part[|lo| + |before| + 1..] == last
  {
    LeadingSpacesOf(before, "-" + last);
    assert part[|lo|..] == before + ("-" + last);
  }

  lemma DigitsAfterSpaces(after: string, hi: string)
    requires hi != "" && AllDigits(hi) && AllSpaces(after)
    ensures (after + hi)[LeadingSpaces(after + hi)..] == hi
  {
    LeadingSpacesOf(after, hi);
  }

  lemma DigitsBeforeRest(lo: string, before: string, last: string)
    requires AllDigits(lo) && AllSpaces(before)
    ensures DigitPrefix(lo + (before + ("-" + last))) == |lo|
  {
    var rest := before + ("-" + last);
    assert rest[0] == (if before == "" then '-' else before[0]);
    WholeDigitPrefix(lo, rest);
  }

  lemma ShapeOfParts(part: string, n: nat, i: nat, last: string, hi: string)
    requires DigitPrefix(part) == n > 0 && n <= i < |part| && DashAt(part, n) == i
    requires part[i] == '-' && part[i + 1..] == last && last[LeadingSpaces(last)..] == hi && hi != "" && AllDigits(hi)
    ensures PieceShape(part)
  {
  }

  lemma DashedShape(part: string, lo: string, before: string, after: string, hi: string)
    requires lo != "" && AllDigits(lo) && hi != "" && AllDigits(hi) && AllSpaces(before) && AllSpaces(after)
    requires part == lo + (before + ("-" + (after + hi)))
    ensures PieceShape(part)
  {
    var last := after + hi;
    DigitsBeforeRest(lo, before, last);
    DashAfterSpaces(part, lo, before, last);
    DigitsAfterSpaces(after, hi);
    ShapeOfParts(part, |lo|, |lo| + |before|, last, hi);
  }

  lemma NumberBefore(lo: string, before: string)
    requires lo != "" && AllDigits(lo) && AllSpaces(before)
    ensures Number(lo + before) == Some(DecimalValue(lo)) && '-' !in lo + before
  {
    TrimDigits("", lo, before);
    assert "" + lo + before == lo + before;
  }

  lemma NumberAfter(after: string, hi: string)
    requires hi != "" && AllDigits(hi) && AllSpaces(after)
    ensures Number(after + hi) == Some(DecimalValue(hi)) && '-' !in after + hi
  {
    TrimDigits(after, hi, "");
    assert after + hi + "" == after + hi;
  }

  lemma DashedNumbers(part: string, first: string, last: string)
    requires part == first + ("-" + last) && '-' !in first && '-' !in last
    ensures RangeEnds(part) == Ends(Number(first), Number(last))
  {
    assert part[..|first|] == first && part[|first|] == '-' && part[|first| + 1..] == last;
    DashedEnds(part, |first|);
  }

  /** The text of a range is accepted, keeps its outer form when trimmed, and stands for the ids from end to end. */
  lemma RangeIsRead(r: Range, lead: string)
    requires r.WellFormed() && (lead == "" || lead == " ")
    ensures PieceShape(Trim(lead + r.Text())) && !OutOfBounds(RangeEnds(Trim(lead + r.Text())))
    ensures NativeIds(lead + r.Text()) == Interval(r.lo, r.hi)
    ensures ',' !in r.Text()
  {
    RangeTextIsTrimmed(r, lead);
    RangeTextIsRead(r);
  }

  lemma RangeTextIsTrimmed(r: Range, lead: string)
    requires r.WellFormed() && (lead == "" || lead == " ")
    ensures Trim(lead + r.Text()) == r.Text() && ',' !in r.Text()
  {
    RangeTextEnds(r);
    TrimLead(r.Text(), lead);
  }

  lemma TrimLead(text: string, lead: string)
    requires text != "" && IsDigit(text[0]) && IsDigit(text[|text| - 1]) && (lead == "" || lead == " ")
    ensures Trim(lead + text) == text
  {
    SkipAll(lead, text);
  }

  lemma RangeTextEnds(r: Range)
    requires r.WellFormed()
    ensures
      var text := r.Text();
      text != "" && IsDigit(text[0]) && IsDigit(text[|text| - 1]) && ',' !in text
  {
    var text := r.Text();
    assert text[0] == Decimal(r.lo)[0];
    assert text[|text| - 1] == Decimal(r.hi)[|Decimal(r.hi)| - 1];
    NoComma(r.before);
    NoComma(r.after);
    DecimalText(r.lo);
    DecimalText(r.hi);
  }

  lemma NoComma(spaces: string)
    requires AllSpaces(spaces)
    ensures ',' !in spaces
  {
  }

  lemma DashedRangeIsRead(r: Range)
    requires r.WellFormed() && r.lo != r.hi
    ensures PieceShape(r.Text()) && RangeEnds(r.Text()) == Ends(Some(r.lo), Some(r.hi))
  {
    var lo, hi := Decimal(r.lo), Decimal(r.hi);
    assert r.Text() == lo + (r.before + ("-" + (r.after + hi)));
    assert r.Text() == (lo + r.before) + ("-" + (r.after + hi));
    DashedShape(r.Text(), lo, r.before, r.after, hi);
    NumberBefore(lo, r.before);
    NumberAfter(r.after, hi);
    DashedNumbers(r.Text(), lo + r.before, r.after + hi);
  }

  lemma RangeTextIsRead(r: Range)
    requires r.WellFormed()
    ensures PieceShape(r.Text()) && RangeEnds(r.Text()) == Ends(Some(r.lo), Some(r.hi))
  {
    if r.lo == r.hi {
      IdIsRead(r.lo);
    } else {
      DashedRangeIsRead(r);
    }
  }

  /** One of the ranges contains the id. */
  predicate Covers(list: seq<Range>, id: nat) { exists i :: 0 <= i < |list| && list[i].lo <= id <= list[i].hi }

  lemma {:induction false} UnionOfRanges(parts: seq<string>, list: seq<Range>, id: nat)
    requires |parts| == |list|
    requires forall i :: 0 <= i < |list| ==> NativeIds(parts[i]) == Interval(list[i].lo, list[i].hi)
    ensures id in Union(NativeIds, parts) <==> Covers(list, id)
  {
    if list != [] {
      var n := |list| - 1;
      UnionOfRanges(parts[..n], list[..n], id);
      CoversLast(list, id);
      assert Union(NativeIds, parts) == Union(NativeIds, parts[..n]) + NativeIds(parts[n]);
    }
  }

  lemma CoversLast(list: seq<Range>, id: nat)
    requires list != []
    ensures
      var n := |list| - 1;
      Covers(list, id) <==> Covers(list[..n], id) || list[n].lo <= id <= list[n].hi
  {
    var n := |list| - 1;
    if Covers(list[..n], id) {
      var i :| 0 <= i < n && list[..n][i].lo <= id <= list[..n][i].hi;
      assert list[i].lo <= id <= list[i].hi;
    }
    if Covers(list, id) && !(list[n].lo <= id <= list[n].hi) {
      var i :| 0 <= i < |list| && list[i].lo <= id <= list[i].hi;
      assert list[..n][i].lo <= id <= list[..n][i].hi;
    }
  }

  /** What the editor shows for a list of ids and ranges. */
  function EditorText(list: seq<Range>): string { Join(RangeTexts(list), ", ") }

  lemma PartsOfTexts(texts: seq<string>)
    requires texts != [] && forall i :: 0 <= i < |texts| ==> ',' !in texts[i]
    ensures
      var parts := Split(Join(texts, ", "), ',');
      |parts| == |texts| && forall i :: 0 <= i < |texts| ==> parts[i] == (if i == 0 then "" else " ") + texts[i]
  {
    JoinedTextSplits(texts, "");
    assert "" + Join(texts, ", ") == Join(texts, ", ");
  }

  lemma EditorTextSplits(list: seq<Range>)
    requires list != [] && forall i :: 0 <= i < |list| ==> list[i].WellFormed()
    ensures
      var parts := Split(EditorText(list), ',');
      && |parts| == |list| && ShapedParts(parts)
      && forall i :: 0 <= i < |list| ==> NativeIds(parts[i]) == Interval(list[i].lo, list[i].hi)
  {
    var texts := RangeTexts(list);
    forall i | 0 <= i < |list| ensures ',' !in texts[i] { RangeTextEnds(list[i]); }
    PartsOfTexts(texts);
    PartsAreRead(list, texts, Split(EditorText(list), ','));
  }

  lemma PartsAreRead(list: seq<Range>, texts: seq<string>, parts: seq<string>)
    requires |list| == |texts| == |parts|
    requires forall i :: 0 <= i < |list| ==> list[i].WellFormed() && texts[i] == list[i].Text()
    requires forall i :: 0 <= i < |list| ==> parts[i] == (if i == 0 then "" else " ") + texts[i]
    ensures ShapedParts(parts)
    ensures forall i :: 0 <= i < |list| ==> NativeIds(parts[i]) == Interval(list[i].lo, list[i].hi)
  {
    forall i | 0 <= i < |list|
      ensures PieceShape(Trim(parts[i])) && !OutOfBounds(RangeEnds(Trim(parts[i])))
      ensures NativeIds(parts[i]) == Interval(list[i].lo, list[i].hi)
    {
      EditorPart(list[i], parts[i], if i == 0 then "" else " ");
    }
  }

  lemma EditorPart(r: Range, part: string, lead: string)
    requires r.WellFormed() && (lead == "" || lead == " ") && part == lead + r.Text()
    ensures PieceShape(Trim(part)) && !OutOfBounds(RangeEnds(Trim(part))) && NativeIds(part) == Interval(r.lo, r.hi)
  {
    RangeIsRead(r, lead);
  }

  /**
   * Every non-empty list of ids and ascending ranges in 1..4094, written with commas and with any white space around
   * the dashes, is accepted, and stands for exactly the ids that its ranges contain.
   */
  lemma RangeListRoundTrip(list: seq<Range>)
    requires list != [] && forall i :: 0 <= i < |list| ==> list[i].WellFormed()
    ensures
      var value := VlanValue(Trunk, None, EditorText(list));
      && Valid(value) && Ascending(Normalized(value).trunks)
      && forall id :: id in Normalized(value).trunks <==> Covers(list, id)
  {
    EditorTextSplits(list);
    forall id: nat ensures id in Union(NativeIds, Split(EditorText(list), ',')) <==> Covers(list, id) {
      UnionOfRanges(Split(EditorText(list), ','), list, id);
    }
    EditorTextIsNotBlank(list);
    ShapedTrunkIsValid(EditorText(list));
  }

  function Ids(list: seq<nat>): (ranges: seq<Range>)
    ensures |ranges| == |list| && forall i :: 0 <= i < |list| ==> ranges[i] == Range(list[i], list[i], "", "")
  {
    seq(|list|, i requires 0 <= i < |list| => Range(list[i], list[i], "", ""))
  }

  /**
   * The VLAN editor shows an id list joined with ", ". Every non-empty ascending list of ids in
   * 1..4094 is accepted again in that form and expands to exactly the same list.
   */
  lemma EditorRoundTrip(list: seq<nat>)
    requires list != [] && Ascending(list)
    requires forall i :: 0 <= i < |list| ==> 1 <= list[i] <= 4094
    ensures
      var value := VlanValue(Trunk, None, Join(Texts(list), ", "));
      Valid(value) && Normalized(value).trunks == list
  {
    var ranges := Ids(list);
    RangeListRoundTrip(ranges);
    assert RangeTexts(ranges) == Texts(list);
    var ids := Normalized(VlanValue(Trunk, None, EditorText(ranges))).trunks;
    forall id: nat ensures id in ids <==> id in list { IdsCover(list, id); }
    AscendingDeterminesList(ids, list);
  }

  lemma IdsCover(list: seq<nat>, id: nat)
    ensures Covers(Ids(list), id) <==> id in list
  {
    if id in list {
      var i :| 0 <= i < |list| && list[i] == id;
      assert Ids(list)[i].lo <= id <= Ids(list)[i].hi;
    }
  }

  lemma ShapedTrunkIsValid(trunks: string)
    requires Trim(trunks) != "" && ShapedParts(Split(trunks, ','))
    ensures Valid(VlanValue(Trunk, None, trunks))
  {
  }

  lemma EditorTextIsNotBlank(list: seq<Range>)
    requires list != []
    ensures Trim(EditorText(list)) != ""
  {
    var text := EditorText(list);
    assert RangeTexts(list)[0] == list[0].Text();
    assert list[0].Text()[0] == Decimal(list[0].lo)[0];
    assert text[0] == Decimal(list[0].lo)[0];
    NotBlank(text);
  }

  lemma {:induction false} NotBlank(s: string)
    requires s != "" && !IsSpace(s[0])
    ensures DropTrailingSpaces(s) != ""
  {
    if IsSpace(s[|s| - 1]) { NotBlank(s[..|s| - 1]); }
  }
}
