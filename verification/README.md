# FAIR evaluation plugins: SOCIB and EPOS

This project models the two repository plugins of a FAIR-evaluation
service. Each plugin normalises a repository's JSON metadata record and
scores it against indicators of the RDA FAIR Data Maturity Model, such as
RDA-F2-01M or RDA-R1.1-02M. An indicator result is a score (`points`)
plus a list of messages, or a list of named checks. The model covers
three layers:

- **Metadata value normalisation** (`MetadataValues`). In the SOCIB
  plugin, the `gather` dispatcher picks an extractor by element name,
  and any unknown name or exception falls back to the raw input. Both
  plugins have per-kind extractors, which are order-preserving
  comprehensions and loops over JSON entries. A Python exception is an
  `Option` whose `None` stands for the raise.
- **Vocabulary validators** (`_validate_license`, `_validate_format`).
  Each builds, in the order of the configured vocabularies, one
  `{valid, non_valid}` pair per vocabulary id, filled by a loop.
- **Indicator rules** of both plugins, over normalised inputs. They
  cover presence scores, proportional shares, split credit with Python's
  `round` (round half to even), the SOCIB 2×2 access table, aliases that
  forward another rule's result, and fixed policy constants. The SOCIB
  record-building step of `get_metadata` is modelled as well.

The external services are parameters of the members that use them:

| service | parameter |
|---|---|
| SPDX license lookup | `isSpdx: (string, bool) -> bool` |
| IANA media types | `iana: set<string>` |
| FAIRsharing abbreviations | `registry: string -> seq<string>` |
| `dateutil.isoparse` | `isoParse: Json -> ParseOutcome` |
| `urlparse(..).scheme` | `scheme: string -> string` |
| `get_orcid_str` | `orcid: Json -> Json` |
| the base evaluator's `eval_validated_basic` | its result (`msg`, `points`) |

The plugins' state is set once by `__init__` and never updated. It is
therefore a value (`SocibRules.Socib`, `EposRules.Epos`) that is passed
to the rules, not a class. Python's float scores are exact rationals
(`real`), and shares are stated as `points * total == 100 * found`.

The modules are:

- `Wrappers` — `Option`.
- `Json` — JSON values with Python's `in`, `[]`, `.get`, iteration and
  truthiness.
- `Seqs` — `Filter`/`Map` reference definitions.
- `Text` — `%s`, `repr`, `join`, ASCII case.
- `Outcomes` — indicator results, and `Percent`.
- `Validation` — both validators.
- `Extract` — the comprehension machinery, plus the extractors both
  plugins share.
- `SocibValues`, `SocibRecords`, `SocibRules`, `EposValues`,
  `EposRules` — one module per plugin concern.

Some behaviours of the source that the model keeps and proves:

- EPOS RDA-R1.1-02M gives each license `round(100 / N)` points, so three
  valid licenses score 99 and get the "subset" message.
- From 200 licenses on, each license earns 0 points, so the "none
  standard" message appears even when every license is valid.
- EPOS RDA-F2-01M is not capped at 100.
- EPOS RDA-R1.2-01M always says no provenance was found, whatever it
  scores.
- SOCIB RDA-A1-01M always scores 100 when every matched `text_value` is
  a str. Any other value makes the concatenation raise TypeError.
- SOCIB `gather` returns a non-list, non-str input unchanged rather than
  as a list. It iterates a bare str character by character.
- A configured vocabulary id that no validator implements gets a pair of
  empty lists, not a missing key (plugins/socib/plugin.py:239-241,
  plugins/epos/plugin.py:120-122).

## Model

| member | source | states |
|---|---|---|
| Outcomes.Percent | plugins/epos/plugin.py:672 | `found / total * 100` times total is 100·found, and lies in [0, 100] when found ≤ total |
| Outcomes.PercentBounds | plugins/epos/plugin.py:1560 | a share is 100 exactly when all are found, and 0 exactly when none is |
| Validation.SplitPartitions | plugins/socib/plugin.py:247-259 | valid and non_valid partition the licenses: the lengths add up, the multisets add up, and valid holds exactly the accepted ones |
| Validation.SplitConcat | plugins/socib/plugin.py:247-259 | both lists keep input order: splitting a concatenation splits each part |
| Validation.FillVocabulary | plugins/socib/plugin.py:239-259 | the loop for one id yields the split for the implemented id and two empty lists otherwise |
| Validation.ValidateAll | plugins/epos/plugin.py:120-145 | one entry per configured id, in the configured order, each holding the split for the implemented id and two empty lists otherwise; no other entry |
| Validation.ValidateLicense | plugins/socib/plugin.py:237-265 | one entry per configured id, in the configured order; "spdx" holds the split by the SPDX check; any other id holds two empty lists |
| Validation.ValidateFormat | plugins/epos/plugin.py:116-145 | one entry per configured id, in the configured order; "imtypes" holds the split by IANA membership of the lower-cased format; any other id holds two empty lists |
| Validation.LicensePartition | plugins/epos/plugin.py:166-194 | the EPOS license validator partitions the licenses, and a license is valid exactly when SPDX accepts it |
| Validation.FormatPartition | plugins/epos/plugin.py:131-143 | formats are partitioned; a valid format keeps its original spelling, and is valid exactly when its lower-cased spelling is an IANA type |
| Extract.CollectIsFilterMap | plugins/socib/plugin.py:144-148 | a comprehension succeeds exactly when no entry raises, and then it is the filter-then-map of the entries in order |
| Extract.IdentifiersDataSpec | plugins/socib/plugin.py:94-103 | identifier extraction succeeds exactly when every entry is a dict with "value"; then it is one value per entry, in order (the EPOS body at plugins/epos/plugin.py:41-50 is the same) |
| Extract.FormatsSpec | plugins/socib/plugin.py:106-123 | format extraction succeeds exactly on a list of dicts, and keeps the present, non-empty formats in order (the EPOS body at plugins/epos/plugin.py:53-70 is the same) |
| Extract.FormatsDropEmpty | plugins/epos/plugin.py:66-70 | over dicts, extraction succeeds and every format kept is non-empty |
| SocibValues.KindOf | plugins/socib/plugin.py:41-66 | each of the twelve element names selects the kind whose name it is (`Name(KindOf(e)) == e`); any other name is Unknown and keeps its name |
| SocibValues.KindOfName | plugins/socib/plugin.py:41-66 | no two kinds share a name: reading a known kind's name back gives that kind |
| SocibValues.Fallback | plugins/socib/plugin.py:67-71 | on an exception, a str is wrapped in a one-element list and anything else is returned unchanged |
| SocibValues.TemporalCoveragesSpec | plugins/socib/plugin.py:126-137 | succeeds exactly on a list of dicts, giving one (startDate, endDate) pair per entry with "" for a missing date |
| SocibValues.SpatialCoveragesSpec | plugins/socib/plugin.py:140-148 | when it succeeds, the output is the geo.box of exactly the entries that have one, in order; over dicts whose geo is a dict, it succeeds |
| SocibValues.AtIdsSpec | plugins/socib/plugin.py:152-168 | person and organisation extraction keeps the "@id" of exactly the entries that have one, in order; over dicts it succeeds |
| SocibValues.GetDate | plugins/socib/plugin.py:171-184 | the loop returns the parser-accepted entries in order, and fails when an entry raises anything but ValueError |
| SocibValues.DatesKeepAccepted | plugins/socib/plugin.py:175-184 | an entry is kept exactly when the parser accepts it, and order is kept across concatenation |
| SocibValues.GetDescription | plugins/socib/plugin.py:187-201 | the loop returns the str entries, in order |
| SocibValues.Gather | plugins/socib/plugin.py:32-82 | the dispatcher returns the selected extractor's result, or the fallback when it raises or the name is unknown |
| SocibValues.GatherUnknown | plugins/socib/plugin.py:65-71 | an unknown element name gives the fallback: a str in a list, anything else unchanged |
| SocibValues.GatherScalar | plugins/socib/plugin.py:67-71 | an int or None input comes back as is, not as a list, for every element name |
| SocibValues.GatherTextAliases | plugins/socib/plugin.py:204-235 | Type, Language and License are gathered exactly as Description |
| SocibValues.GatherMissingValue | plugins/socib/plugin.py:103 | a data-identifier entry without "value" discards everything and returns the raw list |
| SocibValues.GatherDataIdentifiers | plugins/socib/plugin.py:43-44 | over dicts that all have "value", data identifiers are those values in order |
| SocibValues.GatherSpatial | plugins/socib/plugin.py:47-48 | over well-formed entries, spatial coverage is the boxes of the entries that have one |
| SocibValues.GatherDates | plugins/socib/plugin.py:53-54 | dates are the accepted entries in order, or the raw list when the parser raises something other than ValueError |
| SocibValues.GatherDescriptions | plugins/socib/plugin.py:55-56 | over a list, descriptions are exactly the str entries in order |
| SocibValues.GatherDescriptionsExample | plugins/socib/plugin.py:187-201 | ["abc", 42, "def", None] gives ["abc", "def"] |
| SocibValues.GatherDescriptionOfString | plugins/socib/plugin.py:192 | a bare str is split into its characters |
| SocibRecords.RowsOf | plugins/socib/plugin.py:410-415 | a list value yields one row per item; any other value yields one row with a None qualifier |
| SocibRecords.BuildMetadata | plugins/socib/plugin.py:404-417 | the nested loops build exactly the reference rows, and fail when json_ld or schemaVersion is missing |
| SocibRecords.RecordsConcat | plugins/socib/plugin.py:409-415 | the rows of consecutive runs of keys concatenate, so key order is preserved |
| SocibRecords.RecordsShape | plugins/socib/plugin.py:404-415 | every row carries the schema and a None qualifier, and its element is a key of json_ld |
| SocibRecords.ListFieldExpands | plugins/socib/plugin.py:409-413 | a list-valued key yields one row per item, in item order, in its place among the keys |
| SocibRecords.ScalarFieldsOneRowEach | plugins/socib/plugin.py:409-415 | with no list value there is exactly one row per key, in key order |
| SocibRecords.SchemaVersionHasRow | plugins/socib/plugin.py:404-415 | schemaVersion itself yields a row whose value is the schema |
| SocibRules.F4_01m | plugins/socib/plugin.py:469-501 | scores 100 exactly when the metadata table is non-empty, else 0, with one matching message |
| SocibRules.A1_03m | plugins/socib/plugin.py:634-649 | scores 100 exactly when the metadata table is non-empty, else 0, with one message naming the item id |
| SocibRules.PresenceRulesAgree | plugins/socib/plugin.py:469-649 | both presence rules give the same score, and it is 0 or 100 |
| SocibRules.AccessDecisionTable | plugins/socib/plugin.py:542-577 | with the registration score at 100, the table gives 100 and one message, after the access-line entry, whatever the metadata score; at 0 it keeps the metadata score, again with one message |
| SocibRules.AccessLineOf | plugins/socib/plugin.py:535-537 | a row has an access line exactly when its `text_value` is a str; a non-str raises TypeError |
| SocibRules.A1_01m | plugins/socib/plugin.py:526-579 | raises TypeError exactly when some matched `text_value` is not a str; otherwise always 100 with exactly two messages: one access line per row (100 exactly when a row exists), then the manual-access message at 100 |
| SocibRules.A1_03d | plugins/socib/plugin.py:681-691 | always 100, one message |
| SocibRules.A1_05d | plugins/socib/plugin.py:745-756 | always 0, one message |
| SocibRules.A1_2_01d | plugins/socib/plugin.py:778-788 | always 100, one message |
| SocibRules.A2_01m | plugins/socib/plugin.py:811-815 | always 100, one message |
| SocibRules.I1_01m | plugins/socib/plugin.py:835-837 | forwards the base evaluator's score and message as one entry |
| SocibRules.I2_01m | plugins/socib/plugin.py:1013 | returns RDA-I1-01M's result unchanged |
| SocibRules.I1_01d | plugins/socib/plugin.py:855-885 | the loop yields the registered standards in order, their share as score (0 with none), and a single-string message |
| SocibRules.StandardsScore | plugins/socib/plugin.py:880-885 | points·total = 100·registered; the score lies in [0, 100]; it is 100 exactly when all are registered and there are some, and 0 exactly when none is registered |
| SocibRules.RegisteredShare | plugins/socib/plugin.py:858-885 | a standard counts exactly when the registry returns an abbreviation equal to it, and the score is that share |
| SocibRules.I1_02d | plugins/socib/plugin.py:990 | returns RDA-I1-01D's result unchanged |
| SocibRules.I2_01d | plugins/socib/plugin.py:1034 | returns RDA-I1-01D's result unchanged |
| SocibRules.I1_02m | plugins/socib/plugin.py:904-968 | scores 100 exactly when the Content-Type is an IANA type, else 0, with two critical checks: header found, and IANA listed |
| EposValues.IdentifiersMetadata | plugins/epos/plugin.py:32-38 | the raw value wrapped in a one-element list |
| EposValues.TemporalCoveragesSpec | plugins/epos/plugin.py:73-87 | succeeds exactly on a list of dicts, giving one {start_date, end_date} per entry with "" defaults |
| EposValues.PersonsSpec | plugins/epos/plugin.py:100-114 | the uids of the entries with a "person", in order; only when there is none, every entry's uid through the ORCID helper |
| EposValues.DirectPersons | plugins/epos/plugin.py:100-104 | the first comprehension keeps person.uid ("" when absent) of exactly the entries with a "person", in order |
| EposValues.OrcidPersons | plugins/epos/plugin.py:109-112 | the fallback maps every entry's uid ("" when absent) through the ORCID helper, one per entry |
| EposValues.PersonEntryShape | plugins/epos/plugin.py:101-103 | one entry keeps its person uid exactly when it has a "person", and a dict whose person is a dict never raises |
| EposValues.License | plugins/epos/plugin.py:147-164 | a str becomes [s], a list is returned unchanged, anything else gives None |
| EposRules.DivMod | plugins/epos/plugin.py:1623 | quotient and remainder satisfy q·b + r = a with r < b |
| EposRules.RemainderIsMod | plugins/epos/plugin.py:1623 | the remainder is Python's `a % b` |
| EposRules.RoundHalfEvenNearest | plugins/epos/plugin.py:1623 | `round(a / b)` is within half of a/b, and on an exact tie it is even |
| EposRules.NoCreditFrom200 | plugins/epos/plugin.py:1623 | `round(100 / n)` is 0 exactly when n ≥ 200 |
| EposRules.RoundHalfEvenExamples | plugins/epos/plugin.py:526 | `round(100/n)` for n = 1, 3, 6, 8, 40 is 100, 33, 17, 12 and 2 (ties go to even) |
| EposRules.FullCreditExact | plugins/epos/plugin.py:1621-1631 | n shares of `round(100/n)` sum to exactly 100 only when n divides 100 |
| EposRules.F2_01m | plugins/epos/plugin.py:514-541 | with no Dublin Core terms: 0 and the configuration message; otherwise (number of non-empty kwargs) × `round(100/len(terms))`, with one message |
| EposRules.F2_01mUncapped | plugins/epos/plugin.py:526-536 | three terms and four non-empty elements score 132: the score is not capped |
| EposRules.F3_01m | plugins/epos/plugin.py:565-570 | always 100, with the identifier list in the message |
| EposRules.F4_01m | plugins/epos/plugin.py:593-603 | scores 100 exactly when the metadata table is non-empty, else 0 |
| EposRules.A1_03m | plugins/epos/plugin.py:765-779 | scores 100 exactly when the metadata table is non-empty, else 0 |
| EposRules.PresenceAlwaysFull | plugins/epos/plugin.py:593-603 | once the constructor has accepted the metadata, both presence rules score 100 |
| EposRules.CompliantVocabularies | plugins/epos/plugin.py:645-652 | the loop collects, in order, the vocabularies under which some value was validated |
| EposRules.A1_01m | plugins/epos/plugin.py:627-674 | the loop builds the reference result: an intro at 100, one entry per element, and the found share as score |
| EposRules.ElementEntryPoints | plugins/epos/plugin.py:640-668 | an element's entry scores 100 exactly when its values are non-empty, else 0 |
| EposRules.AccessEntries | plugins/epos/plugin.py:627-674 | exactly one entry per element follows the intro, which scores 100, and entry i+1 scores 100 exactly when element i has values |
| EposRules.AccessScore | plugins/epos/plugin.py:672 | points·total = 100·found; 100 exactly when every element is found, 0 exactly when none is |
| EposRules.A1_04d | plugins/epos/plugin.py:920-953 | the loop yields the reference result and the accepted schemes in link order; no protocol list when there are no links |
| EposRules.A1_04dScore | plugins/epos/plugin.py:920-953 | with no links, 0; otherwise 100 exactly when some link's scheme is accepted, and the list holds exactly the accepted schemes |
| EposRules.A1_1_01d | plugins/epos/plugin.py:1047-1070 | keeps RDA-A1-04D's score; at 0 a fixed message, at 100 the protocols joined by spaces |
| EposRules.A1_1_01dPoints | plugins/epos/plugin.py:1047-1070 | the score is always 0 or 100 |
| EposRules.A1_2_01d | plugins/epos/plugin.py:1086-1093 | 100 exactly when an authentication method is configured, naming the first one; else 0 and a fixed message |
| EposRules.I1_02m | plugins/epos/plugin.py:1246-1307 | scores 100 exactly when the Content-Type is an IANA type, with two critical checks: header found, and IANA listed |
| EposRules.I2_01d | plugins/epos/plugin.py:1394-1397 | always 0, one message |
| EposRules.I3_01d | plugins/epos/plugin.py:1437-1440 | always 0, one message |
| EposRules.I3_02m | plugins/epos/plugin.py:1460-1463 | always 0, one message |
| EposRules.I3_02d | plugins/epos/plugin.py:1482-1486 | always 0, one message |
| EposRules.VocabularyLines | plugins/epos/plugin.py:1511-1517 | the inner loop yields one line per vocabulary with valid values, in order, and flags whether there was any |
| EposRules.I3_03m | plugins/epos/plugin.py:1506-1528 | the nested loops build the reference result: 100 with the joined lines when there is any line, else 0 and a fixed message |
| EposRules.QualifiedScore | plugins/epos/plugin.py:1506-1528 | scores 100 exactly when some element has some vocabulary with valid values, and 0 exactly when none has |
| EposRules.ReferencesEmpty | plugins/epos/plugin.py:1508-1517 | there are no reference lines exactly when no element has a vocabulary with valid values |
| EposRules.I3_01m | plugins/epos/plugin.py:1416 | returns RDA-I3-03M's result unchanged |
| EposRules.R1_01m | plugins/epos/plugin.py:1548-1562 | points·total = 100·(non-empty elements); the score is in [0, 100]; with none, a fixed message |
| EposRules.R1_1_01m | plugins/epos/plugin.py:1580-1597 | always 100; one license is named, several are each padded with spaces |
| EposRules.R1_1_02m | plugins/epos/plugin.py:1616-1650 | the loop builds the reference result: `round(100/N)` points per SPDX-valid license, and the tier message with " (points: X)" |
| EposRules.LicenseScore | plugins/epos/plugin.py:1621-1636 | score = per-license credit × valid licenses; the "standard" message exactly at 100; with all valid, exactly when N divides 100 |
| EposRules.LicenseNoneStandard | plugins/epos/plugin.py:1623-1646 | the "none" message is chosen exactly when no license is valid or N ≥ 200 |
| EposRules.LicenseScoreExamples | plugins/epos/plugin.py:1621-1631 | 3 valid licenses score 99 and get the "subset" message; 6 score 102; 2 of 3 score 66; 1 of 1 scores 100 |
| EposRules.R1_1_03m | plugins/epos/plugin.py:1669-1682 | keeps RDA-R1.1-02M's machine-readable score, and maps 100, 0 and anything else to three fixed messages |
| EposRules.R1_2_01m | plugins/epos/plugin.py:1700-1708 | 100 exactly when there is a provenance value; the message says none was found either way |
| EposRules.R1_3_01m | plugins/epos/plugin.py:1723-1737 | 100 exactly when FAIRsharing returns the first standard's own abbreviation, else 0, with a matching message |
| EposRules.R1_3_02m | plugins/epos/plugin.py:1772-1782 | with no standard, a fixed 0; otherwise RDA-R1.3-01M's score, whose message list is nested as the message when it is not 100 |
| EposRules.R1_3_02d | plugins/epos/plugin.py:1799-1808 | keeps the base RDA-R1.3-01D score, and says compliant exactly when it is positive |

## Left out

- HTTP acquisition is not modelled. This covers `requests.get` in both
  `get_metadata` methods, EPOS `get_ids`, and the `self.metadata` tables
  those calls build. SOCIB rules see the table as a list of records; EPOS
  rules see only its row count.
- SOCIB `get_metadata_flat` and `get_metadata_old` are left out. They
  use an external flattening library and a hard-coded slug.
- EPOS `get_metadata`'s flattening loop is left out: it is interleaved
  with HTTP.
- The external services listed above are parameters, not
  implementations.
- SOCIB RDA-A1-02M is left out. It scrapes HTML, and leaves its result
  unbound when the request fails.
- SOCIB RDA-A1-04M is left out. It returns nothing unless asked for the
  protocol, and reads an attribute this plugin never sets.
- EPOS RDA-A2-01M is left out: it refers to undefined names and calls
  links.
- EPOS RDA-I1-02D is left out: it is a query on a pandas table.
- Rules whose logic lives in the base evaluator, which is not part of
  this model, are left out. These are EPOS RDA-F1-01M, RDA-F1-01D,
  RDA-F1-02M, RDA-F1-02D, RDA-I1-01M, RDA-I1-01D and RDA-R1.3-01D.
  Where a modelled rule forwards one of them (SOCIB RDA-I1-01M, EPOS
  RDA-R1.3-02D), the base result is a parameter.
- The other EPOS rules are not part of this model: RDA-A1-02M,
  RDA-A1-02D, RDA-A1-03D, RDA-A1-04M, RDA-A1-05D, RDA-A1-1-01M and
  RDA-I2-01M.
- Logging is not modelled.
- The translation function `_` is the identity.
- The configuration file and the `ConfigTerms` decorator are not
  modelled. The configured terms, vocabularies, protocols and
  gathered `kwargs` are explicit inputs.
- Python exceptions in the rules are preconditions: division by zero on
  empty `kwargs` or licenses, IndexError on an empty standards list, and
  UnboundLocalError with no license. In the extractors, and for the
  TypeError of SOCIB RDA-A1-01M, exceptions are modelled as values.
- Float arithmetic is exact rational arithmetic. `round(100 / N)` is
  computed exactly. Python's float `round` agrees with it for every N,
  because 100/N is either an exact tie or at least 1/(2N) away from
  one.
- Strings are sequences of characters. `lower`/`upper` act on ASCII
  letters only, and Python's `repr` escaping of quotes and control
  characters is not modelled.
- JSON booleans and floats are not modelled.
- A decoded object is assumed to have distinct keys.
- HTTP header names are matched case-sensitively.
- SocibRules.I1_02m: the metadata standard named in its message is a
  string field of the plugin state.
- SocibRecords.RowsOf: its own contract gives only the row count for a
  list value. The row-by-row contents are stated by
  SocibRecords.ListFieldExpands.
- EposRules.A1_01m and the other rules that take gathered values take
  them already normalised. The EPOS `gather` comes from the base class
  and is not part of this model.
