/** The SOCIB plugin's indicator rules. The plugin's state is set once by
    its constructor and only read by the rules, so it is a value here
    (`Socib`). The FAIRsharing registry and the IANA media-type list are
    parameters; translation `_` is the identity. */
module SocibRules {
  import opened Wrappers
  import opened Seqs
  import opened Outcomes
  import Text
  import SocibRecords
  import Json

  /** What the rules read from the plugin: the metadata table built by
      `get_metadata`, the configured data standards, the metadata
      endpoint's HTTP headers, and `metadata_standard` as `%s` renders it. */
  datatype Socib = Socib(itemId: string, metadata: seq<SocibRecords.Record>,
                         dataStandard: seq<string>, headers: map<string, string>,
                         metadataStandard: string)

  // ---- RDA-F4-01M and RDA-A1-03M: presence of the metadata table

  const HarvestableMsg := "Metadata is searchable by Google because of the JSON-LD record included in the landing page"
  const NotHarvestableMsg := "No metadata record is included as a JSON-LD object in the data product's landing page. Please, contact to repository data steward"

  function F4_01m(s: Socib): (r: Outcome)
    ensures IsSingle(r)
    ensures r.points == 100.0 <==> |s.metadata| > 0
    ensures r.points == 0.0 <==> |s.metadata| == 0
    ensures MessageOf(r) == if |s.metadata| > 0 then HarvestableMsg else NotHarvestableMsg
  {
    if |s.metadata| > 0 then Single(100.0, HarvestableMsg) else Single(0.0, NotHarvestableMsg)
  }

  function A1_03m(s: Socib): (r: Outcome)
    ensures IsSingle(r)
    ensures r.points == 100.0 <==> |s.metadata| > 0
    ensures r.points == 0.0 <==> |s.metadata| == 0
    ensures |s.metadata| > 0 ==> MessageOf(r) == "Metadata record could be retrieved from metadata identifier: " + s.itemId
    ensures |s.metadata| == 0 ==> MessageOf(r) == "Metadata record cannot be retrieved from metadata identifier: " + s.itemId
  {
    var points := if |s.metadata| > 0 then 100.0 else 0.0;
    var msg := if |s.metadata| > 0
               then "Metadata record could be retrieved from metadata identifier: " + s.itemId
               else "Metadata record cannot be retrieved from metadata identifier: " + s.itemId;
    Single(points, msg)
  }

  /** Both presence rules agree on the score. */
  lemma PresenceRulesAgree(s: Socib)
    ensures F4_01m(s).points == A1_03m(s).points
    ensures F4_01m(s).points == 0.0 || F4_01m(s).points == 100.0
  {
  }

  // ---- RDA-A1-01M: access metadata and the 2×2 decision table

  const RegistrationNote := "Data is only downloadable upon registration in the SOCIB website"
  const ManualAccessMsg := "Data can be accessed manually | " + RegistrationNote
  const NoManualAccessMsg := "Data can not be accessed manually | " + RegistrationNote
  const NoAccessInfoMsg := "No access information can be found in the metadata. Please, add information to the following term(s) "

  function AccessLine(text: string): string
  {
    "Metadata found for access: " + text
  }

  /** The 2×2 table over the metadata score `points` and the registration
      score `points2`: the final score and the entries appended to the
      message list. */
  function AccessDecision(points: real, points2: real, termData: string): (real, seq<Entry>)
  {
    if points2 == 100.0 && points == 100.0 then
      (points, [Entry(Text(ManualAccessMsg), points2)])
    else if points2 == 0.0 && points == 100.0 then
      (points, [Entry(Text(NoManualAccessMsg), points2)])
    else if points2 == 100.0 && points == 0.0 then
      (100.0, [Entry(Text(ManualAccessMsg), points2)])
    else if points2 == 0.0 && points == 0.0 then
      (points, [Entry(Text(NoAccessInfoMsg + termData), points2)])
    else (points, [])
  }

  /** With the registration score at 100 the table always ends at 100 with
      the "can be accessed manually" entry; only a registration score of 0
      would let the metadata score through. */
  lemma AccessDecisionTable(points: real, termData: string)
    requires points == 0.0 || points == 100.0
    ensures AccessDecision(points, 100.0, termData)
      == (100.0, [Entry(Text(ManualAccessMsg), 100.0)])
    ensures AccessDecision(points, 0.0, termData).0 == points
    ensures |AccessDecision(points, 0.0, termData).1| == 1
    ensures AccessDecision(points, 0.0, termData).1[0].points == 0.0
  {
  }

  /** The access line of one `text_value`; concatenating a non-str
      raises TypeError, so only a str has one. */
  function AccessLineOf(value: Json.Json): (line: Option<string>)
    ensures line.Some? <==> value.JStr?
    ensures value.JStr? ==> line == Some(AccessLine(value.s))
  {
    if value.JStr? then Some(AccessLine(value.s)) else None
  }

  /** The `text_value` of a row is a str. */
  predicate IsStrValue(value: Json.Json)
  {
    value.JStr?
  }

  /** The str carried by a `text_value` (only read where it is one). */
  function StrOf(value: Json.Json): string
  {
    if value.JStr? then value.s else ""
  }

  /** `accessValues` are the `text_value`s of the rows found for the
      access terms, in row order; `termData` is `%s` of the term data.
      The rule raises TypeError (None here) exactly when some value is not
      a str; otherwise it always scores 100, with one access line per row
      and then the manual-access message. */
  method A1_01m(accessValues: seq<Json.Json>, termData: string) returns (r: Option<Outcome>)
    ensures r.None? <==> exists i :: 0 <= i < |accessValues| && !IsStrValue(accessValues[i])
    ensures r.Some? ==> r.value.points == 100.0
    ensures r.Some? ==> r.value.feedback.Entries? && |r.value.feedback.entries| == 2
    ensures r.Some? ==>
      r.value.feedback.entries[0]
        == Entry(Lines(Map(Map(accessValues, StrOf), AccessLine)), if accessValues != [] then 100.0 else 0.0)
    ensures r.Some? ==> r.value.feedback.entries[1] == Entry(Text(ManualAccessMsg), 100.0)
  {
    var points := 0.0;
    var lines: seq<string> := [];
    var i := 0;
    while i < |accessValues|
      invariant 0 <= i <= |accessValues|
      invariant forall j :: 0 <= j < i ==> IsStrValue(accessValues[j])
      invariant lines == Map(Map(accessValues[..i], StrOf), AccessLine)
      invariant points == if i > 0 then 100.0 else 0.0
    {
      match AccessLineOf(accessValues[i]) {
        case None =>
          return None;
        case Some(line) =>
          lines := lines + [line];
          assert lines == Map(Map(accessValues[..i + 1], StrOf), AccessLine);
      }
      points := 100.0;
      i := i + 1;
    }
    assert accessValues[..i] == accessValues;
    var first := Entry(Lines(lines), points);
    var points2 := 100.0;
    var (final, rest) := AccessDecision(points, points2, termData);
    r := Some(Outcome(final, Entries([first] + rest)));
  }

  // ---- RDA-A1-03D, RDA-A1-05D, RDA-A1-2-01D, RDA-A2-01M: fixed policy scores

  const DownloadMsg := "Data can be downloaded upon registration in the SOCIB website"
  const NoMachineAccessMsg := "SOCIB Data Repository does not support machine-actionable access to data"
  const AaiMsg := "SOCIB implemets AAI to access the digital object"
  const PreservationMsg :=
    "SOCIB Data Repository Preservation Plan policy is available at: https://repository.socib.es/repository/entry/show?entryid=504dd999-0e5e-49c0-b2e1-790559055fd0"

  function A1_03d(): (r: Outcome)
    ensures IsSingle(r) && r.points == 100.0
    ensures MessageOf(r) == DownloadMsg
  {
    Single(100.0, DownloadMsg)
  }

  function A1_05d(): (r: Outcome)
    ensures IsSingle(r) && r.points == 0.0
    ensures MessageOf(r) == NoMachineAccessMsg
  {
    Single(0.0, NoMachineAccessMsg)
  }

  function A1_2_01d(): (r: Outcome)
    ensures IsSingle(r) && r.points == 100.0
    ensures MessageOf(r) == AaiMsg
  {
    Single(100.0, AaiMsg)
  }

  function A2_01m(): (r: Outcome)
    ensures IsSingle(r) && r.points == 100.0
    ensures MessageOf(r) == PreservationMsg
  {
    Single(100.0, PreservationMsg)
  }

  // ---- RDA-I1-01M and RDA-I2-01M: the base evaluator's result, wrapped

  /** `msg` and `points` are what the base evaluator's
      `eval_validated_basic` returns for the controlled-vocabulary terms. */
  function I1_01m(msg: string, points: real): (r: Outcome)
    ensures IsSingle(r) && r.points == points && MessageOf(r) == msg
  {
    Single(points, msg)
  }

  /** RDA-I2-01M forwards RDA-I1-01M's result unchanged. */
  function I2_01m(msg: string, points: real): (r: Outcome)
    ensures r == I1_01m(msg, points)
    ensures IsSingle(r) && r.points == points
  {
    I1_01m(msg, points)
  }

  // ---- RDA-I1-01D (and its aliases RDA-I1-02D, RDA-I2-01D): data standards in FAIRsharing

  /** A data standard counts when the registry's answer for it holds an
      entry whose abbreviation is exactly the standard. `registry(s)` is
      the list of abbreviations FAIRsharing returns for `s`. */
  function Registered(registry: string -> seq<string>): string -> bool
  {
    s => s in registry(s)
  }

  const StandardsTail := ") data standards using standard vocabularies"

  /** "Found k (a, b) out of n (a, b, c) data standards using standard vocabularies". */
  function StandardsMessage(found: seq<string>, standards: seq<string>): string
  {
    var sep := ", ";
    "Found " + Text.NatToString(|found|) + " (" + Text.Join(sep, found) + ") out of "
    + Text.NatToString(|standards|) + " (" + Text.Join(sep, standards) + StandardsTail
  }

  /** The registered standards' share of all standards, 0 when none are
      configured. */
  function StandardsPoints(standards: seq<string>, registry: string -> seq<string>): real
  {
    var found := Filter(standards, Registered(registry));
    FilterSplit(standards, Registered(registry));
    if standards == [] then 0.0 else Percent(|found|, |standards|)
  }

  /** The reference result: the registered standards in order, scored by
      their share, with a single str as message. */
  function StandardsOutcome(standards: seq<string>, registry: string -> seq<string>): Outcome
  {
    Outcome(StandardsPoints(standards, registry),
            Plain(StandardsMessage(Filter(standards, Registered(registry)), standards)))
  }

  method I1_01d(s: Socib, registry: string -> seq<string>) returns (r: Outcome)
    ensures r == StandardsOutcome(s.dataStandard, registry)
  {
    var standards := s.dataStandard;
    var found: seq<string> := [];
    var i := 0;
    while i < |standards|
      invariant 0 <= i <= |standards|
      invariant found == Filter(standards[..i], Registered(registry))
    {
      assert standards[..i + 1] == standards[..i] + [standards[i]];
      FilterSnoc(standards[..i], standards[i], Registered(registry));
      if standards[i] in registry(standards[i]) {
        found := found + [standards[i]];
      }
      i := i + 1;
    }
    assert standards[..i] == standards;
    FilterSplit(standards, Registered(registry));
    var points := 0.0;
    if standards != [] {
      points := |found| as real / |standards| as real * 100.0;
    }
    r := Outcome(points, Plain(StandardsMessage(found, standards)));
  }

  /** The score is the registered share of the standards: points times
      the number of standards is 100 times the number registered, it
      stays within 0..100, it is 100 exactly when there are standards and
      all are registered, and 0 exactly when none is (or there are none). */
  lemma StandardsScore(standards: seq<string>, registry: string -> seq<string>)
    ensures StandardsOutcome(standards, registry).points == StandardsPoints(standards, registry)
    ensures StandardsPoints(standards, registry) * |standards| as real
            == 100.0 * |Filter(standards, Registered(registry))| as real
    ensures 0.0 <= StandardsPoints(standards, registry) <= 100.0
    ensures StandardsPoints(standards, registry) == 100.0
            <==> standards != [] && forall i :: 0 <= i < |standards| ==> standards[i] in registry(standards[i])
    ensures StandardsPoints(standards, registry) == 0.0
            <==> forall i :: 0 <= i < |standards| ==> standards[i] !in registry(standards[i])
  {
    RegisteredShare(standards, registry);
  }

  /** The share, with registration as the filter's predicate. */
  lemma RegisteredShare(standards: seq<string>, registry: string -> seq<string>)
    ensures var points := StandardsPoints(standards, registry);
      var found := Filter(standards, Registered(registry));
      points * |standards| as real == 100.0 * |found| as real
      && 0.0 <= points <= 100.0
      && (points == 100.0 <==> standards != [] && forall i :: 0 <= i < |standards| ==> Registered(registry)(standards[i]))
      && (points == 0.0 <==> forall i :: 0 <= i < |standards| ==> !Registered(registry)(standards[i]))
  {
    var found := Filter(standards, Registered(registry));
    FilterKeepsAll(standards, Registered(registry));
    FilterEmpty(standards, Registered(registry));
    if standards != [] {
      PercentBounds(|found|, |standards|);
    }
  }

  /** RDA-I1-02D forwards RDA-I1-01D's result unchanged. */
  method I1_02d(s: Socib, registry: string -> seq<string>) returns (r: Outcome)
    ensures r == StandardsOutcome(s.dataStandard, registry)
  {
    r := I1_01d(s, registry);
  }

  /** RDA-I2-01D forwards RDA-I1-01D's result unchanged. */
  method I2_01d(s: Socib, registry: string -> seq<string>) returns (r: Outcome)
    ensures r == StandardsOutcome(s.dataStandard, registry)
  {
    r := I1_01d(s, registry);
  }

  // ---- RDA-I1-02M: media type from the HTTP headers, checked against IANA

  /** `headers.get("Content-Type", "")`. */
  function ContentType(s: Socib): string
  {
    if "Content-Type" in s.headers then s.headers["Content-Type"] else ""
  }

  function I1_02m(s: Socib, iana: set<string>): (r: Outcome)
    ensures r.points == 100.0 <==> ContentType(s) in iana
    ensures r.points == 0.0 <==> ContentType(s) !in iana
    ensures r.feedback.Checks? && |r.feedback.checks| == 2
    ensures var c := r.feedback.checks;
      c[0].id == "FAIR-EVA-I1-02M-1" && c[1].id == "FAIR-EVA-I1-02M-2"
      && c[0].critical && c[1].critical
      && (c[0].success <==> ContentType(s) != "")
      && (c[1].success <==> ContentType(s) in iana)
      && (forall k :: 0 <= k < 2 ==> (c[k].points == if c[k].success then Some(100) else None))
  {
    var contentType := ContentType(s);
    var headerCheck :=
      if contentType != "" then
        Check("FAIR-EVA-I1-02M-1", "Media type gathered from HTTP headers", true, true, Some(100),
              "Found media type '" + contentType + "' through HTTP headers")
      else
        Check("FAIR-EVA-I1-02M-1", "Media type gathered from HTTP headers", true, false, None,
              "The metadata standard in use does not provide a machine-understandable knowledge expression: "
              + s.metadataStandard);
    var ianaCheck :=
      if contentType in iana then
        Check("FAIR-EVA-I1-02M-2", "Media type listed under IANA Internet Media Types", true, true, Some(100),
              "Metadata serialization format '" + contentType + "' listed under IANA Media Types")
      else
        Check("FAIR-EVA-I1-02M-2", "Media type listed under IANA Internet Media Types", true, false, None,
              "Metadata serialization '" + contentType + "' format is not listed under IANA Internet Media Types");
    Outcome(if contentType in iana then 100.0 else 0.0, Checks([headerCheck, ianaCheck]))
  }
}
