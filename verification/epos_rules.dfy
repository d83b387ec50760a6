/** The EPOS plugin's indicator rules. The plugin's configuration is set
    once by its constructor and only read by the rules, so it is a value
    here (`Epos`). The SPDX check, the URL scheme parser, the FAIRsharing
    registry and the IANA media-type list are parameters; the arguments the
    `ConfigTerms` decorator passes as `kwargs` are explicit inputs. */
module EposRules {
  import opened Wrappers
  import opened Seqs
  import opened Json
  import opened Outcomes
  import Text
  import Validation

  /** What the rules read from the plugin: the number of metadata rows the
      constructor gathered, the configured access protocols, metadata
      standard(s) and authentication methods, and the metadata endpoint's
      HTTP headers. */
  datatype Epos = Epos(itemId: string, apiEndpoint: string, metadataRows: nat,
                       termsAccessProtocols: seq<string>, metadataStandard: seq<string>,
                       metadataAuthentication: seq<string>, headers: map<string, string>)

  /** The constructor raises unless some metadata was gathered, so every
      plugin the rules run on has at least one row. */
  predicate Constructed(e: Epos)
  {
    e.metadataRows > 0
  }

  // ---- Python's `round(a / b)`: round half to even

  /** Quotient and remainder of `a / b` (Python's `//` and `%` on
      naturals), by repeated subtraction. */
  function DivMod(a: nat, b: nat): (r: (nat, nat))
    requires b > 0
    ensures r.0 * b + r.1 == a
    ensures r.1 < b
    decreases a
  {
    if a < b then (0, a)
    else
      var rest := DivMod(a - b, b);
      assert (rest.0 + 1) * b == rest.0 * b + b;
      (rest.0 + 1, rest.1)
  }

  /** `round(a / b)` for naturals: the quotient, bumped up when the
      remainder is past half the divisor, or exactly half with an odd
      quotient. */
  function RoundHalfEven(a: nat, b: nat): nat
    requires b > 0
  {
    var q := DivMod(a, b).0;
    var rem := DivMod(a, b).1;
    if 2 * rem < b then q
    else if 2 * rem > b then q + 1
    else if q % 2 == 0 then q
    else q + 1
  }

  /** The result is an integer nearest to `a / b`, and on a tie (exactly
      half-way) the even one. */
  lemma RoundHalfEvenNearest(a: nat, b: nat)
    requires b > 0
    ensures -(b as int) <= 2 * (a - RoundHalfEven(a, b) * b) <= b
    ensures 2 * (a - RoundHalfEven(a, b) * b) == b || 2 * (a - RoundHalfEven(a, b) * b) == -(b as int)
            ==> RoundHalfEven(a, b) % 2 == 0
  {
    var q := DivMod(a, b).0;
    var m := q * b;
    assert (q + 1) * b == m + b;
  }

  /** `round(100 / n)` is 0 from 200 items on (0.5 rounds to even 0), so
      items past that count earn nothing. */
  lemma NoCreditFrom200(n: nat)
    requires n > 0
    ensures RoundHalfEven(100, n) == 0 <==> n >= 200
  {
    var q := DivMod(100, n).0;
    if n > 100 {
      assert q == 0;
    } else {
      assert q > 0;
    }
  }

  /** Per-item credit for a few list sizes: 3 items get 33 each, 6 get 17,
      8 get 12 (12.5 rounds to even), 40 get 2 (2.5 rounds to even). */
  lemma RoundHalfEvenExamples()
    ensures RoundHalfEven(100, 1) == 100
    ensures RoundHalfEven(100, 3) == 33
    ensures RoundHalfEven(100, 6) == 17
    ensures RoundHalfEven(100, 8) == 12
    ensures RoundHalfEven(100, 40) == 2
  {
    var _ := DivMod(100, 1);
    var _ := DivMod(100, 3);
    var _ := DivMod(100, 6);
    var _ := DivMod(100, 8);
    var _ := DivMod(100, 40);
  }

  /** Division with a remainder below the divisor is unique. */
  lemma DivisionUnique(a: nat, b: nat, q: int, r: int, q': int, r': int)
    requires b > 0 && 0 <= r < b && 0 <= r' < b
    requires q * b + r == a && q' * b + r' == a
    ensures q == q' && r == r'
  {
    if q > q' {
      assert (q - q') * b == q * b - q' * b;
      MultipleAtLeast(q - q', b);
    } else if q < q' {
      assert (q' - q) * b == q' * b - q * b;
      MultipleAtLeast(q' - q, b);
    }
  }

  lemma {:induction false} MultipleAtLeast(k: int, b: nat)
    requires k >= 1
    ensures k * b >= b
    decreases k
  {
    if k > 1 {
      MultipleAtLeast(k - 1, b);
      assert k * b == (k - 1) * b + b;
    }
  }

  /** The remainder is Python's `a % b`. */
  lemma RemainderIsMod(a: nat, b: nat)
    requires b > 0
    ensures DivMod(a, b).1 == a % b
  {
    DivisionUnique(a, b, DivMod(a, b).0, DivMod(a, b).1, a / b, a % b);
  }

  /** Giving every one of `n` items its rounded share adds up to exactly 100
      only when `n` divides 100. */
  lemma FullCreditExact(n: nat)
    requires n > 0
    ensures RoundHalfEven(100, n) * n == 100 <==> 100 % n == 0
  {
    var q := DivMod(100, n).0;
    var rem := DivMod(100, n).1;
    var m := q * n;
    assert 100 == m + rem;
    assert (q + 1) * n == m + n;
    var r := RoundHalfEven(100, n);
    assert r == q || r == q + 1;
    RemainderIsMod(100, n);
  }

  // ---- RDA-F2-01M: Dublin Core richness

  const DcMissingMsg := "Dublin Core's terms/elements for 'Metadata for Resource Discovery' are not defined in configuration. Please do so within '[dublin-core]' section."
  const DcFoundTail := ") metadata elements matching 'Dublin Core Metadata for Resource Discovery' elements"

  /** A `kwargs` entry whose value is truthy. */
  predicate HasValue(kv: (string, Json))
  {
    Truthy(kv.1)
  }

  /** `dcTerms` are the configured Dublin Core terms; `kwargs` the
      metadata elements with their gathered values. */
  function F2_01m(dcTerms: seq<string>, kwargs: seq<(string, Json)>): (r: Outcome)
    ensures dcTerms == [] ==> r == Outcome(0.0, Notes([DcMissingMsg]))
    ensures dcTerms != [] ==>
      r.points == (|Filter(kwargs, HasValue)| * RoundHalfEven(100, |dcTerms|)) as real
    ensures r.feedback.Notes? && |r.feedback.notes| == 1
  {
    if dcTerms == [] then Outcome(0.0, Notes([DcMissingMsg]))
    else
      var found := |Filter(kwargs, HasValue)|;
      var points := found * RoundHalfEven(100, |dcTerms|);
      Outcome(points as real, Notes(["Found " + Text.NatToString(found) + " (out of "
                                     + Text.NatToString(|dcTerms|) + DcFoundTail]))
  }

  /** The score is not capped: three configured terms and four non-empty
      elements give 4 × 33 = 132. */
  lemma F2_01mUncapped()
    ensures F2_01m(["title", "creator", "subject"],
                   [("a", JStr("x")), ("b", JStr("y")), ("c", JStr("z")), ("d", JStr("w"))]).points == 132.0
  {
    var kwargs := [("a", JStr("x")), ("b", JStr("y")), ("c", JStr("z")), ("d", JStr("w"))];
    FilterTrue(kwargs, HasValue);
    assert RoundHalfEven(100, 3) == 33;
  }

  // ---- RDA-F3-01M, RDA-F4-01M, RDA-A1-03M

  const IdentifiersPrefix := "Metadata includes identifier/s for the data: "

  /** `idList` is the gathered "Data Identifier" value. */
  function F3_01m(idList: Json): (r: Outcome)
    ensures IsSingle(r) && r.points == 100.0
    ensures MessageOf(r) == IdentifiersPrefix + Text.Show(idList)
  {
    Single(100.0, IdentifiersPrefix + Text.Show(idList))
  }

  const HarvestMsg := "Metadata is gathered programmatically through HTTP (API REST), thus can be harvested and indexed."

  function F4_01m(e: Epos): (r: Outcome)
    ensures IsSingle(r)
    ensures r.points == 100.0 <==> e.metadataRows > 0
    ensures r.points == 0.0 <==> e.metadataRows == 0
    ensures e.metadataRows > 0 ==> MessageOf(r) == HarvestMsg
  {
    if e.metadataRows > 0 then Single(100.0, HarvestMsg)
    else Single(0.0, "Could not gather metadata from endpoint: " + e.apiEndpoint
                     + ". Metadata cannot be harvested and indexed.")
  }

  function A1_03m(e: Epos): (r: Outcome)
    ensures IsSingle(r)
    ensures r.points == 100.0 <==> e.metadataRows > 0
    ensures r.points == 0.0 <==> e.metadataRows == 0
  {
    if e.metadataRows > 0
    then Single(100.0, "Metadata record could be retrieved from metadata identifier: " + e.itemId)
    else Single(0.0, "Metadata record cannot be retrieved from metadata identifier: " + e.itemId)
  }

  /** On a plugin the constructor accepted, both metadata-presence rules
      always score 100. */
  lemma PresenceAlwaysFull(e: Epos)
    requires Constructed(e)
    ensures F4_01m(e).points == 100.0 && A1_03m(e).points == 100.0
  {
  }

  // ---- RDA-A1-01M: access elements, proportional

  /** One `kwargs` element as the decorator passes it: its gathered
      `values` (`[]` when absent) and its vocabulary `validation`
      (`{}` when absent), vocabulary by vocabulary. */
  datatype Term = Term(name: string, values: Json, validation: seq<(string, Validation.Partition)>)

  const AccessIntro := "Metadata elements related with the user accessibility to data: "
  const ValidatedNote := ". In addition, values have been successfully validated according to standard vocabulary/ies: "

  /** An element whose values are non-empty. */
  predicate Found(t: Term)
  {
    Truthy(t.values)
  }

  /** A vocabulary under which some value was validated. */
  predicate HasValid(v: (string, Validation.Partition))
  {
    v.1.valid != []
  }

  function VocabularyName(v: (string, Validation.Partition)): string
  {
    v.0
  }

  function NameOf(t: Term): string
  {
    t.name
  }

  /** The vocabularies an element's values were validated against, in order. */
  function Compliant(t: Term): seq<string>
  {
    Map(Filter(t.validation, HasValid), VocabularyName)
  }

  function NotFoundLine(name: string): string
  {
    "Values for the metadata element '" + name + "' not found"
  }

  function FoundLine(name: string, values: Json, note: string): string
  {
    "Found values for the metadata element '" + name + "': " + Text.Show(values) + note
  }

  /** An element's line: 100 when its values are found, with the
      vocabularies they were validated against; 0 otherwise. */
  function ElementEntry(t: Term): Entry
  {
    if !Found(t) then
      Entry(Text(NotFoundLine(t.name)), 0.0)
    else
      var note := if Compliant(t) != [] then ValidatedNote + Text.Join(", ", Compliant(t)) else "";
      Entry(Text(FoundLine(t.name, t.values, note)), 100.0)
  }

  /** The found elements' share of all elements. */
  function AccessPoints(terms: seq<Term>): real
    requires |terms| > 0
  {
    FilterKeepsAll(terms, Found);
    Percent(|Filter(terms, Found)|, |terms|)
  }

  /** The reference result: an introduction worth 100, one entry per
      element, and the found elements' share as score. */
  function AccessOutcome(terms: seq<Term>): Outcome
    requires |terms| > 0
  {
    Outcome(AccessPoints(terms),
            Entries([Entry(Text(AccessIntro + Text.ReprStrings(Map(terms, NameOf))), 100.0)]
                    + Map(terms, ElementEntry)))
  }

  /** The compliant vocabularies of one element, collected by a loop. */
  method CompliantVocabularies(t: Term) returns (names: seq<string>)
    ensures names == Compliant(t)
  {
    names := [];
    var j := 0;
    while j < |t.validation|
      invariant 0 <= j <= |t.validation|
      invariant names == Map(Filter(t.validation[..j], HasValid), VocabularyName)
    {
      assert t.validation[..j + 1] == t.validation[..j] + [t.validation[j]];
      FilterSnoc(t.validation[..j], t.validation[j], HasValid);
      if t.validation[j].1.valid != [] {
        names := names + [t.validation[j].0];
      }
      j := j + 1;
    }
    assert t.validation[..j] == t.validation;
  }

  /** Dividing by the number of elements raises on an empty `kwargs`. */
  method A1_01m(terms: seq<Term>) returns (r: Outcome)
    requires |terms| > 0
    ensures r == AccessOutcome(terms)
  {
    var intro := Entry(Text(AccessIntro + Text.ReprStrings(Map(terms, NameOf))), 100.0);
    var msgs := [intro];
    var found: seq<string> := [];
    var i := 0;
    while i < |terms|
      invariant 0 <= i <= |terms|
      invariant msgs == [intro] + Map(terms[..i], ElementEntry)
      invariant found == Map(Filter(terms[..i], Found), NameOf)
    {
      var t := terms[i];
      assert terms[..i + 1] == terms[..i] + [t];
      FilterSnoc(terms[..i], t, Found);
      var entry: Entry;
      if !Truthy(t.values) {
        entry := Entry(Text(NotFoundLine(t.name)), 0.0);
      } else {
        found := found + [t.name];
        var compliant := CompliantVocabularies(t);
        var note := "";
        if compliant != [] {
          note := ValidatedNote + Text.Join(", ", compliant);
        }
        entry := Entry(Text(FoundLine(t.name, t.values, note)), 100.0);
      }
      assert entry == ElementEntry(t);
      msgs := msgs + [entry];
      i := i + 1;
    }
    assert terms[..i] == terms;
    FilterKeepsAll(terms, Found);
    r := Outcome(|found| as real / |terms| as real * 100.0, Entries(msgs));
  }

  /** An element's entry scores 100 exactly when its values are non-empty. */
  lemma ElementEntryPoints(t: Term)
    ensures ElementEntry(t).points == if Found(t) then 100.0 else 0.0
  {
  }

  /** There is one entry per element after the introduction, and an
      element's entry scores 100 exactly when its values are non-empty. */
  lemma AccessEntries(terms: seq<Term>)
    requires |terms| > 0
    ensures AccessOutcome(terms).feedback.Entries?
    ensures |AccessOutcome(terms).feedback.entries| == |terms| + 1
    ensures AccessOutcome(terms).feedback.entries[0].points == 100.0
    ensures forall i :: 0 <= i < |terms| ==>
      (AccessOutcome(terms).feedback.entries[i + 1].points == 100.0 <==> Truthy(terms[i].values))
  {
    var entries := AccessOutcome(terms).feedback.entries;
    forall i | 0 <= i < |terms|
      ensures entries[i + 1].points == 100.0 <==> Truthy(terms[i].values)
    {
      ElementEntryPoints(terms[i]);
      assert entries[i + 1] == ElementEntry(terms[i]);
    }
  }

  /** The score is the found elements' share of all elements: 100 exactly
      when every element is found, 0 exactly when none is. */
  lemma AccessScore(terms: seq<Term>)
    requires |terms| > 0
    ensures AccessPoints(terms) * |terms| as real == 100.0 * |Filter(terms, Found)| as real
    ensures AccessPoints(terms) == 100.0 <==> forall i :: 0 <= i < |terms| ==> Found(terms[i])
    ensures AccessPoints(terms) == 0.0 <==> forall i :: 0 <= i < |terms| ==> !Found(terms[i])
  {
    FilterKeepsAll(terms, Found);
    FilterEmpty(terms, Found);
    PercentBounds(|Filter(terms, Found)|, |terms|);
  }

  // ---- RDA-A1-04D and RDA-A1-1-01D: download protocols

  const NoDownloadMsg := "Could not check data access protocol: EPOS metadata element <downloadURL> not found"
  const ProtocolsMiddle := " standarised protocols to access the data: "

  /** A scheme listed among the configured access protocols. */
  function Accepted(e: Epos): string -> bool
  {
    p => p in e.termsAccessProtocols
  }

  /** The accepted schemes of the download links, in link order. */
  function Protocols(e: Epos, links: seq<string>, scheme: string -> string): seq<string>
  {
    Filter(Map(links, scheme), Accepted(e))
  }

  /** The reference result of RDA-A1-04D with `return_protocol=True`: no
      protocol list when there are no links. */
  function A1_04dSpec(e: Epos, links: seq<string>, scheme: string -> string): (Outcome, Option<seq<string>>)
  {
    if links == [] then (Single(0.0, NoDownloadMsg), None)
    else
      var ps := Protocols(e, links, scheme);
      if ps != [] then
        (Single(100.0, "Found " + Text.NatToString(|ps|) + ProtocolsMiddle
                       + Text.ReprStrings(Map(ps, Text.Upper))), Some(ps))
      else (Single(0.0, ""), Some(ps))
  }

  /** `links` is the gathered "Download Link" list; `scheme` stands for
      `urlparse(link).scheme`. */
  method A1_04d(e: Epos, links: seq<string>, scheme: string -> string)
    returns (r: Outcome, protocols: Option<seq<string>>)
    ensures (r, protocols) == A1_04dSpec(e, links, scheme)
  {
    if |links| == 0 {
      return Single(0.0, NoDownloadMsg), None;
    }
    var points := 0.0;
    var list: seq<string> := [];
    var i := 0;
    while i < |links|
      invariant 0 <= i <= |links|
      invariant list == Filter(Map(links[..i], scheme), Accepted(e))
      invariant points == if list != [] then 100.0 else 0.0
    {
      assert Map(links[..i + 1], scheme) == Map(links[..i], scheme) + [scheme(links[i])];
      FilterSnoc(Map(links[..i], scheme), scheme(links[i]), Accepted(e));
      var protocol := scheme(links[i]);
      if protocol in e.termsAccessProtocols {
        points := 100.0;
        list := list + [protocol];
      }
      i := i + 1;
    }
    assert links[..i] == links;
    var msg := "";
    if points == 100.0 {
      msg := "Found " + Text.NatToString(|list|) + ProtocolsMiddle + Text.ReprStrings(Map(list, Text.Upper));
    }
    return Single(points, msg), Some(list);
  }

  /** The score is 100 exactly when some link's scheme is an accepted
      protocol, 0 otherwise; the protocol list holds exactly the accepted
      schemes, in link order. */
  lemma A1_04dScore(e: Epos, links: seq<string>, scheme: string -> string)
    ensures var (r, ps) := A1_04dSpec(e, links, scheme);
      IsSingle(r)
      && (r.points == 100.0 <==> exists i :: 0 <= i < |links| && scheme(links[i]) in e.termsAccessProtocols)
      && (r.points == 0.0 <==> forall i :: 0 <= i < |links| ==> scheme(links[i]) !in e.termsAccessProtocols)
      && (ps.Some? <==> links != [])
      && (ps.Some? ==> forall p :: p in ps.value <==> p in Map(links, scheme) && p in e.termsAccessProtocols)
  {
    var mapped := Map(links, scheme);
    FilterEmpty(mapped, Accepted(e));
    forall p ensures p in Protocols(e, links, scheme) <==> p in mapped && p in e.termsAccessProtocols {
      FilterMembership(mapped, Accepted(e), p);
    }
  }

  const FreeProtocolsPrefix := "Found free protocol/s to access the data: "
  const NoFreeProtocolsMsg := "Could not check if data access protocol/s are free: protocols are not available (see RDA-A1-04D)"

  method A1_1_01d(e: Epos, links: seq<string>, scheme: string -> string) returns (r: Outcome)
    ensures r.points == A1_04dSpec(e, links, scheme).0.points
    ensures r.points == 0.0 ==> r == Single(0.0, NoFreeProtocolsMsg)
    ensures r.points == 100.0 ==>
      r == Single(100.0, FreeProtocolsPrefix + Text.Join(" ", Protocols(e, links, scheme)))
  {
    var res, protocols := A1_04d(e, links, scheme);
    var list := if protocols.Some? then protocols.value else [];
    var points := res.points;
    r := res;
    if points == 0.0 {
      r := Single(points, NoFreeProtocolsMsg);
    } else if points == 100.0 {
      r := Single(points, FreeProtocolsPrefix + Text.Join(" ", list));
    }
  }

  /** RDA-A1.1-01D only rewrites messages: its score is 0 or 100. */
  lemma A1_1_01dPoints(e: Epos, links: seq<string>, scheme: string -> string)
    ensures A1_04dSpec(e, links, scheme).0.points == 0.0 || A1_04dSpec(e, links, scheme).0.points == 100.0
  {
  }

  // ---- RDA-A1-2-01D: configured authentication

  const NoAuthMsg := "At the time, EPOS does not provide authentication or authorisation protocols"

  function A1_2_01d(e: Epos): (r: Outcome)
    ensures r.points == 100.0 <==> e.metadataAuthentication != []
    ensures r.points == 0.0 <==> e.metadataAuthentication == []
    ensures e.metadataAuthentication == [] ==> r.feedback == Plain(NoAuthMsg)
    ensures e.metadataAuthentication != [] ==>
      r.feedback == Plain("The authentication is given by: " + e.metadataAuthentication[0])
  {
    if e.metadataAuthentication != []
    then Outcome(100.0, Plain("The authentication is given by: " + e.metadataAuthentication[0]))
    else Outcome(0.0, Plain(NoAuthMsg))
  }

  // ---- RDA-I1-02M: media type from the HTTP headers, checked against IANA

  const NotIanaMsg := "Metadata serialization format is not listed under IANA Internet Media Types"

  /** `headers.get("Content-Type", "")`. */
  function ContentType(e: Epos): string
  {
    if "Content-Type" in e.headers then e.headers["Content-Type"] else ""
  }

  function I1_02m(e: Epos, iana: set<string>): (r: Outcome)
    ensures r.points == 100.0 <==> ContentType(e) in iana
    ensures r.points == 0.0 <==> ContentType(e) !in iana
    ensures r.feedback.Checks? && |r.feedback.checks| == 2
    ensures var c := r.feedback.checks;
      c[0].id == "FAIR-EVA-I1-02M-1" && c[1].id == "FAIR-EVA-I1-02M-2"
      && c[0].critical && c[1].critical
      && (c[0].success <==> ContentType(e) != "")
      && (c[1].success <==> ContentType(e) in iana)
      && (!c[1].success ==> c[1].message == NotIanaMsg)
      && (forall k :: 0 <= k < 2 ==> (c[k].points == if c[k].success then Some(100) else None))
  {
    var contentType := ContentType(e);
    var headerCheck :=
      if contentType != "" then
        Check("FAIR-EVA-I1-02M-1", "Media type gathered from HTTP headers", true, true, Some(100),
              "Found media type '" + contentType + "' through HTTP headers")
      else
        Check("FAIR-EVA-I1-02M-1", "Media type gathered from HTTP headers", true, false, None,
              "The metadata standard in use does not provide a machine-understandable knowledge expression: "
              + Text.ReprStrings(e.metadataStandard));
    var ianaCheck :=
      if contentType in iana then
        Check("FAIR-EVA-I1-02M-2", "Media type listed under IANA Internet Media Types", true, true, Some(100),
              "Metadata serialization format '" + contentType + "' listed under IANA Media Types")
      else
        Check("FAIR-EVA-I1-02M-2", "Media type listed under IANA Internet Media Types", true, false, None,
              NotIanaMsg);
    Outcome(if contentType in iana then 100.0 else 0.0, Checks([headerCheck, ianaCheck]))
  }

  // ---- fixed zero scores: RDA-I2-01D, RDA-I3-01D, RDA-I3-02M, RDA-I3-02D

  const VocabulariesTooCostlyMsg := "This test implies access to the content of the data and match terms used there with FAIR-compliant vocabularies. As it is defined, its implementation is too costly"
  const ReferencesTooCostlyMsg := "This test implies checking the presence of qualified references within the content of the data. As it is defined, its implementation is too costly."
  const NoReferencesMsg := "No references to other data."

  function I2_01d(): (r: Outcome)
    ensures IsSingle(r) && r.points == 0.0 && MessageOf(r) == VocabulariesTooCostlyMsg
  {
    Single(0.0, VocabulariesTooCostlyMsg)
  }

  function I3_01d(): (r: Outcome)
    ensures IsSingle(r) && r.points == 0.0 && MessageOf(r) == ReferencesTooCostlyMsg
  {
    Single(0.0, ReferencesTooCostlyMsg)
  }

  function I3_02m(): (r: Outcome)
    ensures IsSingle(r) && r.points == 0.0 && MessageOf(r) == NoReferencesMsg
  {
    Single(0.0, NoReferencesMsg)
  }

  function I3_02d(): (r: Outcome)
    ensures IsSingle(r) && r.points == 0.0 && MessageOf(r) == ReferencesTooCostlyMsg
  {
    Single(0.0, ReferencesTooCostlyMsg)
  }

  // ---- RDA-I3-03M (and its alias RDA-I3-01M): qualified references

  const QualifiedPrefix := "Metadata has qualified references to other metadata: "
  const NoQualifiedMsg := "Metadata does not have qualified references to other metadata"

  function ReferenceLine(element: string, v: (string, Validation.Partition)): string
  {
    "'" + element + "' element uses vocabulary " + v.0 + " in '" + Text.ReprStrings(v.1.valid) + "'"
  }

  function LineFor(element: string): ((string, Validation.Partition)) -> string
  {
    v => ReferenceLine(element, v)
  }

  /** The reference lines of one element: one per vocabulary with valid
      values, in vocabulary order. */
  function ElementReferences(t: Term): seq<string>
  {
    Map(Filter(t.validation, HasValid), LineFor(t.name))
  }

  /** All elements' reference lines, element by element. */
  function References(terms: seq<Term>): seq<string>
  {
    if terms == [] then [] else References(terms[..|terms| - 1]) + ElementReferences(terms[|terms| - 1])
  }

  /** The reference result: 100 with the joined lines when there is any
      line, otherwise 0 with a fixed message. */
  function QualifiedOutcome(terms: seq<Term>): Outcome
  {
    var lines := References(terms);
    if lines != [] then Single(100.0, QualifiedPrefix + Text.Join(", ", lines))
    else Single(0.0, NoQualifiedMsg)
  }

  /** The inner loop over one element's vocabularies: a line per
      vocabulary with valid values, and whether there was any. */
  method VocabularyLines(element: string, validation: seq<(string, Validation.Partition)>)
    returns (lines: seq<string>, qualified: bool)
    ensures lines == Map(Filter(validation, HasValid), LineFor(element))
    ensures qualified <==> lines != []
  {
    lines := [];
    qualified := false;
    var j := 0;
    while j < |validation|
      invariant 0 <= j <= |validation|
      invariant lines == Map(Filter(validation[..j], HasValid), LineFor(element))
      invariant qualified <==> lines != []
    {
      assert validation[..j + 1] == validation[..j] + [validation[j]];
      FilterSnoc(validation[..j], validation[j], HasValid);
      if validation[j].1.valid != [] {
        qualified := true;
        lines := lines + [ReferenceLine(element, validation[j])];
      }
      j := j + 1;
    }
    assert validation[..j] == validation;
  }

  method I3_03m(terms: seq<Term>) returns (r: Outcome)
    ensures r == QualifiedOutcome(terms)
  {
    var hasQualified := false;
    var lines: seq<string> := [];
    var i := 0;
    while i < |terms|
      invariant 0 <= i <= |terms|
      invariant lines == References(terms[..i])
      invariant hasQualified <==> lines != []
    {
      var t := terms[i];
      assert terms[..i + 1][..i] == terms[..i];
      var more, qualified := VocabularyLines(t.name, t.validation);
      hasQualified := hasQualified || qualified;
      lines := lines + more;
      i := i + 1;
    }
    assert terms[..i] == terms;
    if hasQualified {
      r := Single(100.0, QualifiedPrefix + Text.Join(", ", lines));
    } else {
      r := Single(0.0, NoQualifiedMsg);
    }
  }

  /** The score is 100 exactly when some element has some vocabulary with
      validated values, and 0 otherwise. */
  lemma {:induction false} QualifiedScore(terms: seq<Term>)
    ensures IsSingle(QualifiedOutcome(terms))
    ensures QualifiedOutcome(terms).points == 100.0 <==>
      exists i, j :: 0 <= i < |terms| && 0 <= j < |terms[i].validation| && terms[i].validation[j].1.valid != []
    ensures QualifiedOutcome(terms).points == 0.0 <==>
      forall i, j :: 0 <= i < |terms| && 0 <= j < |terms[i].validation| ==> terms[i].validation[j].1.valid == []
  {
    ReferencesEmpty(terms);
  }

  lemma {:induction false} ReferencesEmpty(terms: seq<Term>)
    ensures References(terms) == [] <==>
      forall i, j :: 0 <= i < |terms| && 0 <= j < |terms[i].validation| ==> terms[i].validation[j].1.valid == []
  {
    if terms != [] {
      var init := terms[..|terms| - 1];
      var last := terms[|terms| - 1];
      ReferencesEmpty(init);
      FilterEmpty(last.validation, HasValid);
      assert forall i :: 0 <= i < |init| ==> terms[i] == init[i];
    }
  }

  /** RDA-I3-01M forwards RDA-I3-03M's result unchanged. */
  method I3_01m(terms: seq<Term>) returns (r: Outcome)
    ensures r == QualifiedOutcome(terms)
  {
    r := I3_03m(terms);
  }

  // ---- RDA-R1-01M: reusability elements, proportional

  const NoReusabilityMsg := "Could not fing any metadata element that enhance reusability"
  const ReusabilityMiddle := " metadata elements that enhance reusability: "

  function Key(kv: (string, Json)): string
  {
    kv.0
  }

  function ReusabilityMessage(found: seq<string>): string
  {
    if |found| > 0 then "Found " + Text.NatToString(|found|) + ReusabilityMiddle + Text.ReprStrings(found)
    else NoReusabilityMsg
  }

  /** Dividing by the number of elements raises on an empty `kwargs`. */
  function R1_01m(kwargs: seq<(string, Json)>): (r: Outcome)
    requires |kwargs| > 0
    ensures IsSingle(r)
    ensures r.points * |kwargs| as real == 100.0 * |Filter(kwargs, HasValue)| as real
    ensures 0.0 <= r.points <= 100.0
    ensures Filter(kwargs, HasValue) == [] ==> MessageOf(r) == NoReusabilityMsg
  {
    FilterKeepsAll(kwargs, HasValue);
    Single(Percent(|Filter(kwargs, HasValue)|, |kwargs|), ReusabilityMessage(Map(Filter(kwargs, HasValue), Key)))
  }

  // ---- RDA-R1.1-01M: licenses listed

  const OneLicensePrefix := "The license is: "
  const LicensesPrefix := "The licenses are : "

  /** Each license padded with a space on both sides, concatenated. */
  function Spaced(licenses: seq<string>): string
  {
    if licenses == [] then "" else Spaced(licenses[..|licenses| - 1]) + " " + licenses[|licenses| - 1] + " "
  }

  /** With no license the message is never bound (UnboundLocalError), so a
      license is required. */
  method R1_1_01m(licenses: seq<string>) returns (r: Outcome)
    requires |licenses| > 0
    ensures IsSingle(r) && r.points == 100.0
    ensures |licenses| == 1 ==> MessageOf(r) == OneLicensePrefix + licenses[0]
    ensures |licenses| > 1 ==> MessageOf(r) == LicensesPrefix + Spaced(licenses)
  {
    var msg: string;
    if |licenses| > 1 {
      msg := LicensesPrefix;
      var i := 0;
      while i < |licenses|
        invariant 0 <= i <= |licenses|
        invariant msg == LicensesPrefix + Spaced(licenses[..i])
      {
        assert licenses[..i + 1][..i] == licenses[..i];
        msg := msg + " " + licenses[i] + " ";
        i := i + 1;
      }
      assert licenses[..i] == licenses;
    } else {
      msg := OneLicensePrefix + licenses[0];
    }
    r := Single(100.0, msg);
  }

  // ---- RDA-R1.1-02M and RDA-R1.1-03M: SPDX split credit

  const StandardLicensesPrefix := "License/s in use are considered as standard according to SPDX license list: "
  const SubsetLicensesPrefix := "A subset of the license/s in use ("
  const SubsetLicensesMiddle := ") are standard according to SDPX license list: "
  const NoStandardLicensesPrefix := "None of the license/s defined are standard according to SPDX license list: "

  function SpdxValid(isSpdx: (string, bool) -> bool, machineReadable: bool): string -> bool
  {
    l => isSpdx(l, machineReadable)
  }

  /** Which of the three messages a score selects. */
  datatype LicenseTier = AllStandard | SomeStandard | NoneStandard

  function TierOf(points: nat): LicenseTier
  {
    if points == 100 then AllStandard else if points > 0 then SomeStandard else NoneStandard
  }

  function LicenseMessage(licenses: seq<string>, standard: seq<string>, points: nat): string
  {
    var body :=
      match TierOf(points)
      case AllStandard => StandardLicensesPrefix + Text.ReprStrings(standard)
      case SomeStandard =>
        SubsetLicensesPrefix + Text.NatToString(|standard|) + " out of " + Text.NatToString(|licenses|)
        + SubsetLicensesMiddle + Text.ReprStrings(standard)
      case NoneStandard => NoStandardLicensesPrefix + Text.ReprStrings(licenses);
    body + " (points: " + Text.NatToString(points) + ")"
  }

  /** Every SPDX-valid license earns `round(100 / N)` points. */
  function LicensePoints(licenses: seq<string>, ok: string -> bool): nat
    requires |licenses| > 0
  {
    RoundHalfEven(100, |licenses|) * |Filter(licenses, ok)|
  }

  /** The reference result. */
  function LicenseOutcome(licenses: seq<string>, ok: string -> bool): Outcome
    requires |licenses| > 0
  {
    var points := LicensePoints(licenses, ok);
    Single(points as real, LicenseMessage(licenses, Filter(licenses, ok), points))
  }

  /** `round(100 / N)` divides by zero on an empty license list, so a
      license is required. */
  method R1_1_02m(licenses: seq<string>, isSpdx: (string, bool) -> bool, machineReadable: bool)
    returns (r: Outcome)
    requires |licenses| > 0
    ensures r == LicenseOutcome(licenses, SpdxValid(isSpdx, machineReadable))
  {
    var ok := SpdxValid(isSpdx, machineReadable);
    var perLicense := RoundHalfEven(100, |licenses|);
    var points: nat := 0;
    var standard: seq<string> := [];
    var i := 0;
    while i < |licenses|
      invariant 0 <= i <= |licenses|
      invariant standard == Filter(licenses[..i], ok)
      invariant points == perLicense * |standard|
    {
      assert licenses[..i + 1] == licenses[..i] + [licenses[i]];
      FilterSnoc(licenses[..i], licenses[i], ok);
      if isSpdx(licenses[i], machineReadable) {
        assert perLicense * (|standard| + 1) == perLicense * |standard| + perLicense;
        standard := standard + [licenses[i]];
        points := points + perLicense;
      }
      i := i + 1;
    }
    assert licenses[..i] == licenses;
    assert standard == Filter(licenses, ok);
    assert points == LicensePoints(licenses, ok);
    var msg := LicenseMessage(licenses, standard, points);
    assert msg == LicenseMessage(licenses, Filter(licenses, ok), LicensePoints(licenses, ok));
    r := Single(points as real, msg);
  }

  /** The score is the per-license credit times the number of valid
      licenses; the "standard" message is chosen exactly when that is 100,
      so with every license valid it is chosen exactly when N divides 100. */
  lemma LicenseScore(licenses: seq<string>, ok: string -> bool)
    requires |licenses| > 0
    ensures LicenseOutcome(licenses, ok).points
            == (RoundHalfEven(100, |licenses|) * |Filter(licenses, ok)|) as real
    ensures TierOf(LicensePoints(licenses, ok)) == AllStandard <==> LicensePoints(licenses, ok) == 100
    ensures (forall i :: 0 <= i < |licenses| ==> ok(licenses[i])) ==>
      (TierOf(LicensePoints(licenses, ok)) == AllStandard <==> 100 % |licenses| == 0)
  {
    if forall i :: 0 <= i < |licenses| ==> ok(licenses[i]) {
      FilterTrue(licenses, ok);
      FullCreditExact(|licenses|);
    }
  }

  /** The "none standard" message is chosen exactly when no license is
      valid or there are so many (200 or more) that each earns 0. */
  lemma LicenseNoneStandard(licenses: seq<string>, ok: string -> bool)
    requires |licenses| > 0
    ensures TierOf(LicensePoints(licenses, ok)) == NoneStandard
            <==> Filter(licenses, ok) == [] || |licenses| >= 200
  {
    var per := RoundHalfEven(100, |licenses|);
    var valid := |Filter(licenses, ok)|;
    NoCreditFrom200(|licenses|);
    if per >= 1 && valid >= 1 {
      MultipleAtLeast(per, valid);
    }
  }

  /** Three licenses, all valid, score 3 × 33 = 99 and get the "subset"
      message; six score 102; two of three score 66. */
  lemma LicenseScoreExamples(ok: string -> bool)
    requires ok("MIT") && ok("Apache-2.0") && ok("GPL-3.0") && ok("BSD-3-Clause") && ok("MPL-2.0") && ok("ISC")
    requires !ok("custom")
    ensures LicensePoints(["MIT", "Apache-2.0", "GPL-3.0"], ok) == 99
    ensures TierOf(LicensePoints(["MIT", "Apache-2.0", "GPL-3.0"], ok)) == SomeStandard
    ensures LicensePoints(["MIT", "Apache-2.0", "GPL-3.0", "BSD-3-Clause", "MPL-2.0", "ISC"], ok) == 102
    ensures LicensePoints(["MIT", "custom", "GPL-3.0"], ok) == 66
    ensures LicensePoints(["MIT"], ok) == 100
  {
    var three := ["MIT", "Apache-2.0", "GPL-3.0"];
    var six := ["MIT", "Apache-2.0", "GPL-3.0", "BSD-3-Clause", "MPL-2.0", "ISC"];
    FilterTrue(three, ok);
    FilterTrue(six, ok);
    FilterTrue(["MIT"], ok);
    assert Filter(["MIT", "custom", "GPL-3.0"], ok) == ["MIT", "GPL-3.0"] by {
      var s := ["MIT", "custom", "GPL-3.0"];
      assert s[1..][1..][1..] == [];
    }
    RoundHalfEvenExamples();
  }

  const MachineReadableMsg := "License/s are machine readable according to SPDX"
  const NotMachineReadableMsg := "License/s are not machine readable according to SPDX"
  const SomeMachineReadableMsg := "A subset of the license/s are machine readable according to SPDX"

  /** RDA-R1.1-02M with the machine-readable SPDX check, re-worded. */
  method R1_1_03m(licenses: seq<string>, isSpdx: (string, bool) -> bool) returns (r: Outcome)
    requires |licenses| > 0
    ensures IsSingle(r)
    ensures r.points == LicenseOutcome(licenses, SpdxValid(isSpdx, true)).points
    ensures MessageOf(r) == (if r.points == 100.0 then MachineReadableMsg
                             else if r.points == 0.0 then NotMachineReadableMsg
                             else SomeMachineReadableMsg)
  {
    var res := R1_1_02m(licenses, isSpdx, true);
    var msg := if res.points == 100.0 then MachineReadableMsg
               else if res.points == 0.0 then NotMachineReadableMsg
               else SomeMachineReadableMsg;
    r := Single(res.points, msg);
  }

  // ---- RDA-R1.2-01M: provenance

  const NoProvenanceMsg := "No provenance or curation references found in the metadata"

  /** The score reflects whether provenance values exist, but the message
      claims none were found either way. */
  function R1_2_01m(provenance: seq<Json>): (r: Outcome)
    ensures IsSingle(r)
    ensures r.points == 100.0 <==> provenance != []
    ensures r.points == 0.0 <==> provenance == []
    ensures MessageOf(r) == NoProvenanceMsg
  {
    Single(if |provenance| > 0 then 100.0 else 0.0, NoProvenanceMsg)
  }

  // ---- RDA-R1.3-01M, RDA-R1.3-02M, RDA-R1.3-02D: community standards

  const NoStandardMsg := "No metadata standard"
  const CommunityStandardMsg := "Metadata standard in use complies with a community standard according to FAIRsharing.org"
  const MachineStandardMsg := "The metadata standard in use is compliant with a machine-understandable community standard"

  /** `metadata_standard[0]` raises IndexError on an empty list, so a
      standard is required. `registry(s)` is the list of abbreviations
      FAIRsharing returns for `s`. */
  method R1_3_01m(e: Epos, registry: string -> seq<string>) returns (r: Outcome)
    requires e.metadataStandard != []
    ensures IsSingle(r)
    ensures r.points == 100.0 <==> e.metadataStandard[0] in registry(e.metadataStandard[0])
    ensures r.points == 0.0 <==> e.metadataStandard[0] !in registry(e.metadataStandard[0])
    ensures MessageOf(r) == if r.points == 100.0 then CommunityStandardMsg else NoStandardMsg
  {
    var standard := e.metadataStandard[0];
    var results := registry(standard);
    var msg := NoStandardMsg;
    var points := 0.0;
    var i := 0;
    while i < |results|
      invariant 0 <= i <= |results|
      invariant points == 100.0 <==> standard in results[..i]
      invariant points == 0.0 <==> standard !in results[..i]
      invariant msg == if points == 100.0 then CommunityStandardMsg else NoStandardMsg
    {
      assert results[..i + 1] == results[..i] + [results[i]];
      if standard == results[i] {
        points := 100.0;
        msg := CommunityStandardMsg;
      }
      i := i + 1;
    }
    assert results[..i] == results;
    r := Single(points, msg);
  }

  /** With no standard, a fixed 0; otherwise RDA-R1.3-01M's score, whose
      whole message list becomes the message unless the score is 100. */
  method R1_3_02m(e: Epos, registry: string -> seq<string>) returns (r: Outcome)
    ensures e.metadataStandard == [] ==> r == Single(0.0, NoStandardMsg)
    ensures e.metadataStandard != [] ==>
      (r.points == 100.0 <==> e.metadataStandard[0] in registry(e.metadataStandard[0]))
    ensures e.metadataStandard != [] && r.points == 100.0 ==> r == Single(100.0, MachineStandardMsg)
    ensures e.metadataStandard != [] && r.points != 100.0 ==>
      r == Outcome(0.0, Entries([Entry(Nested([Entry(Text(NoStandardMsg), 0.0)]), 0.0)]))
  {
    if e.metadataStandard == [] {
      return Single(0.0, NoStandardMsg);
    }
    var res := R1_3_01m(e, registry);
    if res.points == 100.0 {
      r := Single(100.0, MachineStandardMsg);
    } else {
      assert res.feedback.entries == [Entry(Text(NoStandardMsg), 0.0)];
      r := Outcome(res.points, Entries([Entry(Nested(res.feedback.entries), res.points)]));
    }
  }

  const DataStandardMsg := "Data is expressed in compliance with machine-understandable community standard"
  const NoDataStandardMsg := "No machine-understandable standard found for expressing the data"

  /** `points` is the score of the base evaluator's RDA-R1.3-01D. */
  function R1_3_02d(points: real): (r: Outcome)
    ensures IsSingle(r) && r.points == points
    ensures MessageOf(r) == if points > 0.0 then DataStandardMsg else NoDataStandardMsg
  {
    Single(points, if points > 0.0 then DataStandardMsg else NoDataStandardMsg)
  }
}
