/** SOCIB `MetadataValues`: the `gather` dispatcher and its per-kind
    extractors. `gather` never raises: an unknown element name or an
    exception inside an extractor falls back to the raw input (a bare
    string wrapped in a one-element list). The ISO 8601 parser is a
    parameter. */
module SocibValues {
  import opened Wrappers
  import opened Json
  import opened Seqs
  import opened Extract

  /** The element names `gather` dispatches on; any other name is Unknown. */
  datatype ElementKind =
    | MetadataIdentifier | DataIdentifier | TemporalCoverage | SpatialCoverage
    | PersonIdentifier | Format | Date | Description | Type
    | OrganizationIdentifier | Language | License
    | Unknown(name: string)

  /** The element name `gather` compares against for each kind; the
      inverse of KindOf on the known kinds. */
  function Name(k: ElementKind): string {
    match k
    case MetadataIdentifier => "Metadata Identifier"
    case DataIdentifier => "Data Identifier"
    case TemporalCoverage => "Temporal Coverage"
    case SpatialCoverage => "Spatial Coverage"
    case PersonIdentifier => "Person Identifier"
    case Format => "Format"
    case Date => "Date"
    case Description => "Description"
    case Type => "Type"
    case OrganizationIdentifier => "Organization Identifier"
    case Language => "Language"
    case License => "License"
    case Unknown(name) => name
  }

  /** Each known element name selects the kind it names; any other name is
      Unknown and keeps its name. */
  function KindOf(element: string): (k: ElementKind)
    ensures Name(k) == element
    ensures k.Unknown? <==> element !in KnownElements
    ensures k.Unknown? ==> k.name == element
  {
    if element == "Metadata Identifier" then MetadataIdentifier
    else if element == "Data Identifier" then DataIdentifier
    else if element == "Temporal Coverage" then TemporalCoverage
    else if element == "Spatial Coverage" then SpatialCoverage
    else if element == "Person Identifier" then PersonIdentifier
    else if element == "Format" then Format
    else if element == "Date" then Date
    else if element == "Description" then Description
    else if element == "Type" then Type
    else if element == "Organization Identifier" then OrganizationIdentifier
    else if element == "Language" then Language
    else if element == "License" then License
    else Unknown(element)
  }

  /** Reading a known kind's name back gives that kind: no two kinds share
      a name. */
  lemma KindOfName(k: ElementKind)
    requires !k.Unknown?
    ensures Name(k) in KnownElements
    ensures KindOf(Name(k)) == k
  {
  }

  const KnownElements: set<string> :=
    {"Metadata Identifier", "Data Identifier", "Temporal Coverage", "Spatial Coverage",
     "Person Identifier", "Format", "Date", "Description", "Type",
     "Organization Identifier", "Language", "License"}

  /** What `gather` returns: a freshly built list of values, a list of
      `(startDate, endDate)` tuples, or a Python object returned as it came. */
  datatype Gathered =
    | Values(items: seq<Json>)
    | Spans(spans: seq<(Json, Json)>)
    | Raw(v: Json)

  /** What `isoparse` does with one entry: accepts it, raises ValueError, or
      raises any other exception. */
  datatype ParseOutcome = Parsed | Rejected | Raises

  /** The fallback: a str is wrapped in a one-element list, anything else is
      returned unchanged. */
  function Fallback(values: Json): (g: Gathered)
    ensures values.JStr? ==> g == Values([values])
    ensures !values.JStr? ==> g == Raw(values)
  {
    if values.JStr? then Values([values]) else Raw(values)
  }

  // ---- `_get_temporal_coverage`: `(startDate, endDate)` with "" defaults

  function TemporalEntry(x: Json): Option<Option<(Json, Json)>>
  {
    var start :- DateField(x, "startDate");
    var end :- DateField(x, "endDate");
    Some(Some((start, end)))
  }

  function SpanOf(x: Json): (Json, Json)
  {
    match TemporalEntry(x)
    case Some(Some(p)) => p
    case _ => (JNull, JNull)
  }

  function TemporalCoverages(values: Json): Option<seq<(Json, Json)>>
  {
    Comprehension(values, TemporalEntry)
  }

  /** Temporal extraction over a list succeeds exactly when every entry is
      an object, and then yields one `(startDate, endDate)` pair per entry,
      with `""` for a missing date. */
  lemma TemporalCoveragesSpec(items: seq<Json>)
    ensures TemporalCoverages(JList(items)).Some? <==> forall i :: 0 <= i < |items| ==> items[i].JObj?
    ensures TemporalCoverages(JList(items)).Some? ==>
      var r := TemporalCoverages(JList(items)).value;
      |r| == |items|
      && forall i :: 0 <= i < |items| ==>
           (r[i].0 == if "startDate" in Keys(items[i].fields) then Index(items[i], "startDate").value else JStr(""))
           && (r[i].1 == if "endDate" in Keys(items[i].fields) then Index(items[i], "endDate").value else JStr(""))
  {
    CollectIsFilterMap(items, TemporalEntry, _ => true, SpanOf);
    FilterTrue(items, _ => true);
  }

  // ---- `_get_spatial_coverage`: `value_data["geo"]["box"]` where present

  function SpatialEntry(x: Json): Option<Option<Json>>
  {
    var hasGeo :- In("geo", x);
    if !hasGeo then Some(None)
    else
      var geo :- Index(x, "geo");
      var hasBox :- In("box", geo);
      if !hasBox then Some(None)
      else
        var box :- Index(geo, "box");
        Some(Some(box))
  }

  /** An entry holding an object `geo` with a `box` key. */
  predicate HasBox(x: Json)
  {
    x.JObj? && "geo" in Keys(x.fields)
    && Index(x, "geo").value.JObj? && "box" in Keys(Index(x, "geo").value.fields)
  }

  function BoxOf(x: Json): Json
  {
    if HasBox(x) then Index(Index(x, "geo").value, "box").value else JNull
  }

  function SpatialCoverages(values: Json): Option<seq<Json>>
  {
    Comprehension(values, SpatialEntry)
  }

  /** Spatial extraction, when it succeeds, is exactly the boxes of the
      entries that have one, in order: entries without a box are dropped,
      so the output is as long as the number of entries with a box. */
  lemma SpatialCoveragesSpec(items: seq<Json>)
    ensures SpatialCoverages(JList(items)).Some? ==>
      SpatialCoverages(JList(items)).value == Map(Filter(items, HasBox), BoxOf)
      && |SpatialCoverages(JList(items)).value| == |Filter(items, HasBox)|
    ensures (forall i :: 0 <= i < |items| ==>
               items[i].JObj? && ("geo" in Keys(items[i].fields) ==> Index(items[i], "geo").value.JObj?))
            ==> SpatialCoverages(JList(items)).Some?
  {
    CollectIsFilterMap(items, SpatialEntry, HasBox, BoxOf);
  }

  // ---- `_get_person` and `_get_organization`: `value_data["@id"]` where present

  function IdEntry(x: Json): Option<Option<Json>>
  {
    var has :- In("@id", x);
    if !has then Some(None)
    else
      var id :- Index(x, "@id");
      Some(Some(id))
  }

  predicate HasId(x: Json)
  {
    x.JObj? && "@id" in Keys(x.fields)
  }

  function IdOf(x: Json): Json
  {
    if HasId(x) then Index(x, "@id").value else JNull
  }

  /** Both `_get_person` and `_get_organization` (their bodies are the same). */
  function AtIds(values: Json): Option<seq<Json>>
  {
    Comprehension(values, IdEntry)
  }

  /** Person and organisation extraction, when it succeeds, is exactly the
      `@id` of the entries that have one, in order; over a list of objects
      it always succeeds. */
  lemma AtIdsSpec(items: seq<Json>)
    ensures AtIds(JList(items)).Some? ==> AtIds(JList(items)).value == Map(Filter(items, HasId), IdOf)
    ensures (forall i :: 0 <= i < |items| ==> items[i].JObj?) ==> AtIds(JList(items)).Some?
  {
    CollectIsFilterMap(items, IdEntry, HasId, IdOf);
  }

  // ---- `_get_date`: a loop keeping the entries `isoparse` accepts

  function ParsedBy(isoParse: Json -> ParseOutcome): Json -> bool
  {
    x => isoParse(x) == Parsed
  }

  /** The reference definition: the entries the parser accepts, in order,
      provided no entry makes it raise anything but ValueError. */
  function DatesSpec(values: Json, isoParse: Json -> ParseOutcome): Option<seq<Json>>
  {
    var items :- Iter(values);
    if forall i :: 0 <= i < |items| ==> isoParse(items[i]) != Raises
    then Some(Filter(items, ParsedBy(isoParse)))
    else None
  }

  method GetDate(values: Json, isoParse: Json -> ParseOutcome) returns (r: Option<seq<Json>>)
    ensures r == DatesSpec(values, isoParse)
  {
    var it := Iter(values);
    if it.None? {
      return None;
    }
    var items := it.value;
    var dates: seq<Json> := [];
    var i := 0;
    while i < |items|
      invariant 0 <= i <= |items|
      invariant dates == Filter(items[..i], ParsedBy(isoParse))
      invariant forall j :: 0 <= j < i ==> isoParse(items[j]) != Raises
    {
      assert items[..i + 1] == items[..i] + [items[i]];
      FilterSnoc(items[..i], items[i], ParsedBy(isoParse));
      match isoParse(items[i]) {
        case Parsed =>
          dates := dates + [items[i]];
        case Rejected =>
        case Raises =>
          return None;
      }
      i := i + 1;
    }
    assert items[..i] == items;
    return Some(dates);
  }

  /** Dates keep exactly the accepted entries, and in their input order. */
  lemma DatesKeepAccepted(items: seq<Json>, isoParse: Json -> ParseOutcome, x: Json)
    requires forall i :: 0 <= i < |items| ==> isoParse(items[i]) != Raises
    ensures DatesSpec(JList(items), isoParse).Some?
    ensures x in DatesSpec(JList(items), isoParse).value <==> x in items && isoParse(x) == Parsed
    ensures forall more: seq<Json> :: (forall i :: 0 <= i < |more| ==> isoParse(more[i]) != Raises) ==>
      DatesSpec(JList(items + more), isoParse).value
        == DatesSpec(JList(items), isoParse).value + DatesSpec(JList(more), isoParse).value
  {
    FilterMembership(items, ParsedBy(isoParse), x);
    forall more: seq<Json> | forall i :: 0 <= i < |more| ==> isoParse(more[i]) != Raises
      ensures DatesSpec(JList(items + more), isoParse).value
        == DatesSpec(JList(items), isoParse).value + DatesSpec(JList(more), isoParse).value
    {
      FilterConcat(items, more, ParsedBy(isoParse));
    }
  }

  // ---- `_get_description` (also `_get_type`, `_get_language`, `_get_license`)

  predicate IsStr(x: Json)
  {
    x.JStr?
  }

  /** The reference definition: the str entries, in order. */
  function DescriptionsSpec(values: Json): Option<seq<Json>>
  {
    var items :- Iter(values);
    Some(Filter(items, IsStr))
  }

  method GetDescription(values: Json) returns (r: Option<seq<Json>>)
    ensures r == DescriptionsSpec(values)
  {
    var it := Iter(values);
    if it.None? {
      return None;
    }
    var items := it.value;
    var texts: seq<Json> := [];
    var i := 0;
    while i < |items|
      invariant 0 <= i <= |items|
      invariant texts == Filter(items[..i], IsStr)
    {
      assert items[..i + 1] == items[..i] + [items[i]];
      FilterSnoc(items[..i], items[i], IsStr);
      if items[i].JStr? {
        texts := texts + [items[i]];
      }
      i := i + 1;
    }
    assert items[..i] == items;
    return Some(texts);
  }

  // ---- `gather`

  /** The extractor `gather` selects for a kind; None when it raises
      (NotImplementedError for an unknown name). */
  function ExtractSpec(values: Json, kind: ElementKind, isoParse: Json -> ParseOutcome): Option<Gathered>
  {
    match kind
    case MetadataIdentifier => Some(Raw(values))
    case DataIdentifier => var r :- IdentifiersData(values); Some(Values(r))
    case TemporalCoverage => var r :- TemporalCoverages(values); Some(Spans(r))
    case SpatialCoverage => var r :- SpatialCoverages(values); Some(Values(r))
    case PersonIdentifier => var r :- AtIds(values); Some(Values(r))
    case Format => var r :- Formats(values); Some(Values(r))
    case Date => var r :- DatesSpec(values, isoParse); Some(Values(r))
    case OrganizationIdentifier => var r :- AtIds(values); Some(Values(r))
    case Description => var r :- DescriptionsSpec(values); Some(Values(r))
    case Type => var r :- DescriptionsSpec(values); Some(Values(r))
    case Language => var r :- DescriptionsSpec(values); Some(Values(r))
    case License => var r :- DescriptionsSpec(values); Some(Values(r))
    case Unknown(_) => None
  }

  function GatherSpec(values: Json, element: string, isoParse: Json -> ParseOutcome): Gathered
  {
    match ExtractSpec(values, KindOf(element), isoParse)
    case Some(g) => g
    case None => Fallback(values)
  }

  method Gather(values: Json, element: string, isoParse: Json -> ParseOutcome) returns (r: Gathered)
    ensures r == GatherSpec(values, element, isoParse)
  {
    var extracted: Option<Gathered>;
    match KindOf(element) {
      case MetadataIdentifier =>
        extracted := Some(Raw(values));
      case DataIdentifier =>
        extracted := match IdentifiersData(values) case Some(v) => Some(Values(v)) case None => None;
      case TemporalCoverage =>
        extracted := match TemporalCoverages(values) case Some(v) => Some(Spans(v)) case None => None;
      case SpatialCoverage =>
        extracted := match SpatialCoverages(values) case Some(v) => Some(Values(v)) case None => None;
      case PersonIdentifier =>
        extracted := match AtIds(values) case Some(v) => Some(Values(v)) case None => None;
      case OrganizationIdentifier =>
        extracted := match AtIds(values) case Some(v) => Some(Values(v)) case None => None;
      case Format =>
        extracted := match Formats(values) case Some(v) => Some(Values(v)) case None => None;
      case Date =>
        var dates := GetDate(values, isoParse);
        extracted := match dates case Some(v) => Some(Values(v)) case None => None;
      case Description =>
        var texts := GetDescription(values);
        extracted := match texts case Some(v) => Some(Values(v)) case None => None;
      case Type =>
        var texts := GetDescription(values);
        extracted := match texts case Some(v) => Some(Values(v)) case None => None;
      case Language =>
        var texts := GetDescription(values);
        extracted := match texts case Some(v) => Some(Values(v)) case None => None;
      case License =>
        var texts := GetDescription(values);
        extracted := match texts case Some(v) => Some(Values(v)) case None => None;
      case Unknown(_) =>
        extracted := None;
    }
    r := match extracted case Some(g) => g case None => Fallback(values);
  }

  /** An element name `gather` does not know yields the fallback. */
  lemma GatherUnknown(values: Json, element: string, isoParse: Json -> ParseOutcome)
    requires element !in KnownElements
    ensures GatherSpec(values, element, isoParse) == Fallback(values)
    ensures values.JStr? ==> GatherSpec(values, element, isoParse) == Values([values])
    ensures !values.JStr? ==> GatherSpec(values, element, isoParse) == Raw(values)
  {
  }

  /** An int or None cannot be iterated, so every extractor but the
      metadata-identifier passthrough raises, and every kind returns the
      value itself, not a list. */
  lemma GatherScalar(values: Json, element: string, isoParse: Json -> ParseOutcome)
    requires values.JInt? || values.JNull?
    ensures GatherSpec(values, element, isoParse) == Raw(values)
  {
  }

  /** Type, Language and License are gathered exactly as Description. */
  lemma GatherTextAliases(values: Json, isoParse: Json -> ParseOutcome)
    ensures GatherSpec(values, "Type", isoParse) == GatherSpec(values, "Description", isoParse)
    ensures GatherSpec(values, "Language", isoParse) == GatherSpec(values, "Description", isoParse)
    ensures GatherSpec(values, "License", isoParse) == GatherSpec(values, "Description", isoParse)
  {
  }

  /** A data-identifier entry without "value" raises KeyError: the partial
      result is discarded and the raw list comes back unchanged. */
  lemma GatherMissingValue(items: seq<Json>, k: nat, isoParse: Json -> ParseOutcome)
    requires k < |items| && items[k].JObj? && "value" !in Keys(items[k].fields)
    ensures GatherSpec(JList(items), "Data Identifier", isoParse) == Raw(JList(items))
  {
    IdentifiersDataSpec(items);
  }

  /** Over a list of objects each with a "value", data identifiers are the
      values, one per entry, in order. */
  lemma GatherDataIdentifiers(items: seq<Json>, isoParse: Json -> ParseOutcome)
    requires forall i :: 0 <= i < |items| ==> items[i].JObj? && "value" in Keys(items[i].fields)
    ensures GatherSpec(JList(items), "Data Identifier", isoParse) == Values(Map(items, ValueOf))
  {
    IdentifiersDataSpec(items);
  }

  /** Over a list of objects whose `geo` (where present) is an object,
      spatial coverage is the boxes of the entries that have one. */
  lemma GatherSpatial(items: seq<Json>, isoParse: Json -> ParseOutcome)
    requires forall i :: 0 <= i < |items| ==>
               items[i].JObj? && ("geo" in Keys(items[i].fields) ==> Index(items[i], "geo").value.JObj?)
    ensures GatherSpec(JList(items), "Spatial Coverage", isoParse)
      == Values(Map(Filter(items, HasBox), BoxOf))
  {
    assert KindOf("Spatial Coverage") == SpatialCoverage;
    SpatialCoveragesSpec(items);
  }

  /** Over a list, dates are the accepted entries in order unless some entry
      makes the parser raise something other than ValueError, in which
      case the raw list comes back. */
  lemma GatherDates(items: seq<Json>, isoParse: Json -> ParseOutcome)
    ensures (forall i :: 0 <= i < |items| ==> isoParse(items[i]) != Raises) ==>
      GatherSpec(JList(items), "Date", isoParse) == Values(Filter(items, ParsedBy(isoParse)))
    ensures (exists i :: 0 <= i < |items| && isoParse(items[i]) == Raises) ==>
      GatherSpec(JList(items), "Date", isoParse) == Raw(JList(items))
  {
  }

  /** Over a list, descriptions are exactly the str entries in order. */
  lemma GatherDescriptions(items: seq<Json>, isoParse: Json -> ParseOutcome)
    ensures GatherSpec(JList(items), "Description", isoParse) == Values(Filter(items, IsStr))
  {
  }

  /** The mixed input ["abc", 42, "def", None] gives ["abc", "def"]. */
  lemma GatherDescriptionsExample(isoParse: Json -> ParseOutcome)
    ensures GatherSpec(JList([JStr("abc"), JInt(42), JStr("def"), JNull]), "Description", isoParse)
      == Values([JStr("abc"), JStr("def")])
  {
    var items := [JStr("abc"), JInt(42), JStr("def"), JNull];
    assert items[1..][1..][1..][1..] == [];
  }

  /** A bare str is iterated character by character: its description is
      the list of its characters, not the str in a list. */
  lemma GatherDescriptionOfString(isoParse: Json -> ParseOutcome)
    ensures GatherSpec(JStr("ab"), "Description", isoParse) == Values([JStr("a"), JStr("b")])
  {
    var items := Chars("ab");
    assert items == [JStr("a"), JStr("b")];
    assert items[1..][1..] == [];
  }
}
