/** Object references in the location hash and their resolution in the bounded inventory. */
module ObjectUrl {
  import opened Strings
  import opened PercentEncoding

  datatype Kind = Bridge | Port | Interface
  datatype Facet = PortFacet | BondFacet | VlanFacet | BondEditFacet
  datatype Reference = Reference(instance: string, kind: Kind, id: string, generation: nat)
  datatype Parsed = Parsed(target: Reference, facet: Option<Facet>)

  const MAX_SAFE_INTEGER: nat := 9007199254740991

  function KindText(k: Kind): string {
    match k
    case Bridge => "Bridge"
    case Port => "Port"
    case Interface => "Interface"
  }

  function ReadKind(text: string): Option<Kind> {
    if text == "Bridge" then Some(Bridge) else if text == "Port" then Some(Port)
    else if text == "Interface" then Some(Interface) else None
  }

  function FacetText(f: Facet): string {
    match f
    case PortFacet => "port"
    case BondFacet => "bond"
    case VlanFacet => "vlan"
    case BondEditFacet => "bond-edit"
  }

  function ReadFacet(text: string): Option<Facet> {
    if text == "port" then Some(PortFacet) else if text == "bond" then Some(BondFacet)
    else if text == "vlan" then Some(VlanFacet) else if text == "bond-edit" then Some(BondEditFacet) else None
  }

  function ObjectHash(r: Reference, facet: Option<Facet>): string {
    var tail := Encode(r.id) + "?" + QueryText(r.generation, facet);
    "#object/" + (Encode(r.instance) + "/" + (Encode(KindText(r.kind)) + "/" + tail))
  }

  function QueryText(generation: nat, facet: Option<Facet>): string {
    "generation=" + Decimal(generation) + (if facet.Some? then "&" + ("facet=" + FacetText(facet.value)) else "")
  }

  /** The text before and after the first separator. */
  function CutAt(s: string, sep: char): Option<(string, string)> {
    if s == "" then None
    else if s[0] == sep then Some(("", s[1..]))
    else
      var rest := CutAt(s[1..], sep);
      if rest.Some? then Some(([s[0]] + rest.value.0, rest.value.1)) else None
  }

  datatype Parts = Parts(instance: string, kind: string, id: string, query: string)

  predicate LineTerminator(c: char) { c as int in {10, 13, 0x2028, 0x2029} }

  /** The four non-empty parts of a hash; the id reaches to the first question mark and the query has no line break. */
  function MatchHash(hash: string): Option<Parts> {
    if !("#object/" <= hash) then None
    else
      var instance := CutAt(hash[|"#object/"|..], '/');
      if instance.None? || instance.value.0 == "" then None
      else
        var kind := CutAt(instance.value.1, '/');
        if kind.None? || kind.value.0 == "" then None
        else
          var id := CutAt(kind.value.1, '?');
          if id.None? || id.value.0 == "" || id.value.1 == "" then None
          else if exists i :: 0 <= i < |id.value.1| && LineTerminator(id.value.1[i]) then None
          else Some(Parts(instance.value.0, kind.value.0, id.value.0, id.value.1))
  }

  /** The value of the first query parameter with that name. */
  function Lookup(pieces: seq<string>, name: string): Option<string> {
    if pieces == [] then None
    else
      var cut := CutAt(pieces[0], '=');
      var key := if cut.Some? then cut.value.0 else pieces[0];
      var value := if cut.Some? then cut.value.1 else "";
      if pieces[0] != "" && key == name then Some(value) else Lookup(pieces[1..], name)
  }

  function ReadGeneration(text: Option<string>): Option<nat> {
    if text.None? then None
    else
      var n := Number(text.value);
      if n.Some? && 1 <= n.value <= MAX_SAFE_INTEGER then n else None
  }

  function ParseHash(hash: string): Option<Parsed> {
    var match_ := MatchHash(hash);
    if match_.None? then None
    else
      var p := match_.value;
      var params := Split(p.query, '&');
      var generation := ReadGeneration(Lookup(params, "generation"));
      var facet := Lookup(params, "facet");
      var kind := Decode(p.kind);
      var instance, id := Decode(p.instance), Decode(p.id);
      if generation.None? || kind.None? || ReadKind(kind.value).None? || (facet.Some? && ReadFacet(facet.value).None?)
         || instance.None? || id.None? then None
      else
        Some(Parsed(Reference(instance.value, ReadKind(kind.value).value, id.value, generation.value),
                    if facet.Some? then ReadFacet(facet.value) else None))
  }

  // ---- round trip ----

  lemma {:induction false} CutAfter(head: string, sep: char, tail: string)
    requires sep !in head
    ensures CutAt(head + [sep] + tail, sep) == Some((head, tail))
  {
    var s := head + [sep] + tail;
    if head == "" {
      assert s[1..] == tail;
    } else {
      assert s[1..] == head[1..] + [sep] + tail;
      CutAfter(head[1..], sep, tail);
      assert [head[0]] + head[1..] == head;
    }
  }

  lemma EncodedPartCuts(text: string, sep: char, tail: string)
    requires sep == '/' || sep == '?'
    ensures CutAt(Encode(text) + [sep] + tail, sep) == Some((Encode(text), tail))
  {
    EncodedAlphabet(text);
    CutAfter(Encode(text), sep, tail);
  }

  lemma FacetTextIsPlain(f: Facet)
    ensures '&' !in FacetText(f) && '=' !in FacetText(f) && ReadFacet(FacetText(f)) == Some(f)
    ensures forall i :: 0 <= i < |FacetText(f)| ==> !LineTerminator(FacetText(f)[i])
  {
  }

  lemma KindTextIsRead(k: Kind)
    ensures KindText(k) != "" && ReadKind(KindText(k)) == Some(k)
  {
  }

  lemma QueryHasNoLineTerminator(generation: nat, facet: Option<Facet>)
    ensures QueryText(generation, facet) != ""
    ensures forall i :: 0 <= i < |QueryText(generation, facet)| ==> !LineTerminator(QueryText(generation, facet)[i])
  {
    assert forall i :: 0 <= i < |"generation="| ==> !LineTerminator("generation="[i]);
    assert forall i :: 0 <= i < |"facet="| ==> !LineTerminator("facet="[i]);
    if facet.Some? { FacetTextIsPlain(facet.value); }
    var query := QueryText(generation, facet);
    forall i | 0 <= i < |query| ensures !LineTerminator(query[i]) {}
  }

  lemma NamesAreDistinct()
    ensures '=' !in "generation" && '=' !in "facet" && "generation" != "facet"
    ensures '&' !in "generation=" && '&' !in "facet="
  {
    assert |"generation"| != |"facet"|;
  }

  /** The pieces of a query: the generation, then the facet if there is one. */
  function QueryPieces(generation: nat, facet: Option<Facet>): seq<string> {
    ["generation=" + Decimal(generation)] + (if facet.Some? then ["facet=" + FacetText(facet.value)] else [])
  }

  lemma QuerySplits(generation: nat, facet: Option<Facet>)
    ensures Split(QueryText(generation, facet), '&') == QueryPieces(generation, facet)
  {
    NamesAreDistinct();
    DecimalText(generation);
    var first := "generation=" + Decimal(generation);
    assert '&' !in first;
    if facet.None? {
      assert first + "" == first;
      SplitWhole(first, '&');
    } else {
      FacetTextIsPlain(facet.value);
      var second := "facet=" + FacetText(facet.value);
      assert '&' !in second;
      SplitHead(first, second, '&');
      SplitWhole(second, '&');
      assert first + ("&" + second) == first + ['&'] + second;
    }
  }

  lemma PieceLookup(name: string, value: string, rest: seq<string>)
    requires '=' !in name && name != ""
    ensures Lookup([name + "=" + value] + rest, name) == Some(value)
    ensures forall other :: other != name ==> Lookup([name + "=" + value] + rest, other) == Lookup(rest, other)
  {
    CutAfter(name, '=', value);
    assert name + "=" + value == name + ['='] + value;
    assert ([name + "=" + value] + rest)[1..] == rest;
  }

  lemma QueryLookup(generation: nat, facet: Option<Facet>)
    requires 1 <= generation <= MAX_SAFE_INTEGER
    ensures
      var params := Split(QueryText(generation, facet), '&');
      && ReadGeneration(Lookup(params, "generation")) == Some(generation)
      && (match facet
          case Some(f) => Lookup(params, "facet").Some? && ReadFacet(Lookup(params, "facet").value) == Some(f)
          case None => Lookup(params, "facet").None?)
  {
    QuerySplits(generation, facet);
    NamesAreDistinct();
    DecimalText(generation);
    var rest := if facet.Some? then ["facet=" + FacetText(facet.value)] else [];
    assert "generation=" == "generation" + "=" && "facet=" == "facet" + "=";
    PieceLookup("generation", Decimal(generation), rest);
    if facet.Some? {
      FacetTextIsPlain(facet.value);
      PieceLookup("facet", FacetText(facet.value), []);
      assert rest == ["facet" + "=" + FacetText(facet.value)] + [];
    }
  }

  lemma HashMatches(r: Reference, facet: Option<Facet>)
    requires r.instance != "" && r.id != ""
    ensures MatchHash(ObjectHash(r, facet)) ==
              Some(Parts(Encode(r.instance), Encode(KindText(r.kind)), Encode(r.id), QueryText(r.generation, facet)))
  {
    var query := QueryText(r.generation, facet);
    var afterKind := Encode(r.id) + "?" + query;
    var afterInstance := Encode(KindText(r.kind)) + "/" + afterKind;
    var path := Encode(r.instance) + "/" + afterInstance;
    assert ObjectHash(r, facet) == "#object/" + path && ObjectHash(r, facet)[|"#object/"|..] == path;
    KindTextIsRead(r.kind);
    EncodedAlphabet(r.instance);
    EncodedAlphabet(KindText(r.kind));
    EncodedAlphabet(r.id);
    EncodedPartCuts(r.instance, '/', afterInstance);
    EncodedPartCuts(KindText(r.kind), '/', afterKind);
    EncodedPartCuts(r.id, '?', query);
    QueryHasNoLineTerminator(r.generation, facet);
  }

  /** Every reference with non-empty parts and a safe generation survives the trip through the location hash. */
  lemma HashRoundTrip(r: Reference, facet: Option<Facet>)
    requires r.instance != "" && r.id != "" && 1 <= r.generation <= MAX_SAFE_INTEGER
    ensures ParseHash(ObjectHash(r, facet)) == Some(Parsed(r, facet))
  {
    HashMatches(r, facet);
    QueryLookup(r.generation, facet);
    KindTextIsRead(r.kind);
    DecodeUndoesEncode(r.instance);
    DecodeUndoesEncode(KindText(r.kind));
    DecodeUndoesEncode(r.id);
  }

  lemma DecodedIsNotEmpty(s: string)
    requires s != "" && Decode(s).Some?
    ensures Decode(s).value != ""
  {
  }

  /** Whatever is read back is admissible, so writing it again and reading that gives the same reference and facet. */
  lemma ReadingIsStable(hash: string)
    requires ParseHash(hash).Some?
    ensures
      var p := ParseHash(hash).value;
      && p.target.instance != "" && p.target.id != "" && 1 <= p.target.generation <= 9_007_199_254_740_991
      && ParseHash(ObjectHash(p.target, p.facet)) == Some(p)
  {
    var parts := MatchHash(hash).value;
    DecodedIsNotEmpty(parts.instance);
    DecodedIsNotEmpty(parts.id);
    HashRoundTrip(ParseHash(hash).value.target, ParseHash(hash).value.facet);
  }

  // ---- resolution ----

  datatype Item = Item(name: string, uuid: string)
  datatype Inventory = Inventory(instance: string, generation: nat, bridges: seq<Item>, ports: seq<Item>,
                                 interfaces: seq<Item>) {
    function Of(kind: Kind): seq<Item> {
      match kind
      case Bridge => bridges
      case Port => ports
      case Interface => interfaces
    }
  }

  datatype Resolution =
    | Found(kind: Kind, item: Item, reference: Reference) | OtherInstance | OtherGeneration | OutsideInventory

  function ReferenceTo(inventory: Inventory, kind: Kind, item: Item): Reference {
    Reference(inventory.instance, kind, item.uuid, inventory.generation)
  }

  function FindUuid(items: seq<Item>, uuid: string): (item: Option<Item>)
    ensures item.Some? ==> item.value in items && item.value.uuid == uuid
    ensures item.None? ==> forall i :: i in items ==> i.uuid != uuid
  {
    if items == [] then None else if items[0].uuid == uuid then Some(items[0]) else FindUuid(items[1..], uuid)
  }

  function Resolve(inventory: Inventory, target: Reference): Resolution {
    if target.instance != inventory.instance then OtherInstance
    else if target.generation != inventory.generation then OtherGeneration
    else
      match FindUuid(inventory.Of(target.kind), target.id)
      case Some(item) => Found(target.kind, item, ReferenceTo(inventory, target.kind, item))
      case None => OutsideInventory
  }

  predicate DistinctUuids(items: seq<Item>) {
    forall i, j :: 0 <= i < j < |items| ==> items[i].uuid != items[j].uuid
  }

  /** A current object, sent through its hash, resolves to itself. */
  lemma HashResolvesToTheObject(inventory: Inventory, kind: Kind, k: nat, facet: Option<Facet>)
    requires k < |inventory.Of(kind)| && DistinctUuids(inventory.Of(kind))
    requires inventory.instance != "" && inventory.Of(kind)[k].uuid != ""
      && 1 <= inventory.generation <= MAX_SAFE_INTEGER
    ensures
      var item := inventory.Of(kind)[k];
      var parsed := ParseHash(ObjectHash(ReferenceTo(inventory, kind, item), facet));
      && parsed.Some?
      && Resolve(inventory, parsed.value.target) == Found(kind, item, parsed.value.target)
      && parsed.value.facet == facet
  {
    var item := inventory.Of(kind)[k];
    HashRoundTrip(ReferenceTo(inventory, kind, item), facet);
    var found := FindUuid(inventory.Of(kind), item.uuid);
    assert item in inventory.Of(kind);
    var j :| 0 <= j < |inventory.Of(kind)| && inventory.Of(kind)[j] == found.value;
  }

  /** A reference resolves only to an object of its own kind, uuid, instance and generation. */
  lemma ResolutionIsStrict(inventory: Inventory, target: Reference)
    ensures Resolve(inventory, target).Found? <==>
              && target.instance == inventory.instance && target.generation == inventory.generation
              && exists item :: item in inventory.Of(target.kind) && item.uuid == target.id
    ensures Resolve(inventory, target).Found? ==> Resolve(inventory, target).reference == target
    ensures Resolve(inventory, target).OtherInstance? <==> target.instance != inventory.instance
    ensures Resolve(inventory, target).OtherGeneration? <==>
              target.instance == inventory.instance && target.generation != inventory.generation
  {
  }
}
