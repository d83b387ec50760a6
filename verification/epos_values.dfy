/** EPOS `MetadataValues` extractors. Unlike SOCIB's, these are called
    without a catch-all around them, so an exception inside one (None here)
    propagates to the caller. `get_orcid_str` is a parameter.
    `_get_identifiers_data` and `_get_formats` have the same bodies as
    SOCIB's and are `Extract.IdentifiersData` and `Extract.Formats`. */
module EposValues {
  import opened Wrappers
  import opened Json
  import opened Seqs
  import opened Extract

  /** `_get_identifiers_metadata`: the raw value in a one-element list,
      whatever it is (a str id is not split into characters). */
  function IdentifiersMetadata(values: Json): (r: seq<Json>)
    ensures |r| == 1 && r[0] == values
  {
    [values]
  }

  // ---- `_get_temporal_coverage`: `{"start_date", "end_date"}` with "" defaults

  function TemporalEntry(x: Json): Option<Option<Json>>
  {
    var start :- DateField(x, "startDate");
    var end :- DateField(x, "endDate");
    Some(Some(JObj([("start_date", start), ("end_date", end)])))
  }

  /** The date stored under `key`, `""` when absent. */
  function DateOrEmpty(x: Json, key: string): Json
    requires x.JObj?
  {
    if key in Keys(x.fields) then Index(x, key).value else JStr("")
  }

  function CoverageOf(x: Json): Json
  {
    match TemporalEntry(x)
    case Some(Some(c)) => c
    case _ => JNull
  }

  function TemporalCoverages(values: Json): Option<seq<Json>>
  {
    Comprehension(values, TemporalEntry)
  }

  /** Over a list, temporal extraction succeeds exactly when every entry is
      an object, and then yields one `{start_date, end_date}` object per
      entry, in order, with `""` for a missing date. */
  lemma TemporalCoveragesSpec(items: seq<Json>)
    ensures TemporalCoverages(JList(items)).Some? <==> forall i :: 0 <= i < |items| ==> items[i].JObj?
    ensures TemporalCoverages(JList(items)).Some? ==>
      var r := TemporalCoverages(JList(items)).value;
      |r| == |items|
      && forall i :: 0 <= i < |items| ==>
           r[i] == JObj([("start_date", DateOrEmpty(items[i], "startDate")),
                         ("end_date", DateOrEmpty(items[i], "endDate"))])
  {
    CollectIsFilterMap(items, TemporalEntry, _ => true, CoverageOf);
    FilterTrue(items, _ => true);
  }

  // ---- `_get_person`: `person.uid` where present, else every `uid` through ORCID

  /** `"person" in list(value_data)`: a dict lists its keys, a list its
      items, a str its characters; an int or None raises TypeError. */
  function ListedIn(key: string, x: Json): Option<bool>
  {
    var listed :- Iter(x);
    Some(JStr(key) in listed)
  }

  function PersonEntry(x: Json): Option<Option<Json>>
  {
    var has :- ListedIn("person", x);
    if !has then Some(None)
    else
      var person :- Index(x, "person");
      var uid :- Get(person, "uid", JStr(""));
      Some(Some(uid))
  }

  /** An entry with a `"person"` key. */
  predicate HasPerson(x: Json)
  {
    x.JObj? && "person" in Keys(x.fields)
  }

  /** The `uid` of an entry's person, `""` when absent. */
  function PersonUid(x: Json): Json
  {
    if HasPerson(x) then
      match Get(Index(x, "person").value, "uid", JStr(""))
      case Some(u) => u
      case None => JNull
    else JNull
  }

  function OrcidEntry(orcid: Json -> Json): Json -> Option<Option<Json>>
  {
    x => match Get(x, "uid", JStr("")) case Some(u) => Some(Some(orcid(u))) case None => None
  }

  /** The entry's `uid` (`""` when absent) through `get_orcid_str`. */
  function OrcidOf(orcid: Json -> Json): Json -> Json
  {
    x => match Get(x, "uid", JStr("")) case Some(u) => orcid(u) case None => JNull
  }

  function Persons(values: Json, orcid: Json -> Json): Option<seq<Json>>
  {
    var direct :- Comprehension(values, PersonEntry);
    if direct != [] then Some(direct)
    else Comprehension(values, OrcidEntry(orcid))
  }

  /** On a list of objects whose `person` (where present) is an object,
      the result is the person uids of the entries that have a person, in
      order; only when no entry has one is every entry's `uid` mapped
      through the ORCID normaliser instead, keeping the length. */
  lemma PersonsSpec(items: seq<Json>, orcid: Json -> Json)
    requires forall i :: 0 <= i < |items| ==>
               items[i].JObj? && (HasPerson(items[i]) ==> Index(items[i], "person").value.JObj?)
    ensures Persons(JList(items), orcid).Some?
    ensures (exists i :: 0 <= i < |items| && HasPerson(items[i])) ==>
      Persons(JList(items), orcid).value == Map(Filter(items, HasPerson), PersonUid)
    ensures (forall i :: 0 <= i < |items| ==> !HasPerson(items[i])) ==>
      Persons(JList(items), orcid).value == Map(items, OrcidOf(orcid))
  {
    DirectPersons(items);
    OrcidPersons(items, orcid);
    FilterEmpty(items, HasPerson);
  }

  lemma DirectPersons(items: seq<Json>)
    requires forall i :: 0 <= i < |items| ==>
               items[i].JObj? && (HasPerson(items[i]) ==> Index(items[i], "person").value.JObj?)
    ensures Comprehension(JList(items), PersonEntry) == Some(Map(Filter(items, HasPerson), PersonUid))
  {
    forall x | PersonEntry(x).Some?
      ensures PersonEntry(x).value == (if HasPerson(x) then Some(PersonUid(x)) else None)
    {
      PersonEntryShape(x);
    }
    forall i | 0 <= i < |items|
      ensures PersonEntry(items[i]).Some?
    {
      PersonEntryShape(items[i]);
    }
    CollectIsFilterMap(items, PersonEntry, HasPerson, PersonUid);
  }

  lemma OrcidPersons(items: seq<Json>, orcid: Json -> Json)
    requires forall i :: 0 <= i < |items| ==> items[i].JObj?
    ensures Comprehension(JList(items), OrcidEntry(orcid)) == Some(Map(items, OrcidOf(orcid)))
  {
    var all: Json -> bool := _ => true;
    forall i | 0 <= i < |items|
      ensures OrcidEntry(orcid)(items[i]).Some?
    {
      assert Get(items[i], "uid", JStr("")).Some?;
    }
    CollectIsFilterMap(items, OrcidEntry(orcid), all, OrcidOf(orcid));
    FilterTrue(items, all);
    assert Collect(items, OrcidEntry(orcid)).Some?;
  }

  /** One entry's step keeps the person uid exactly for entries with a
      person: a str never lists "person" (its items are single
      characters), and a list that does raises on `value_data["person"]`. */
  lemma PersonEntryShape(x: Json)
    ensures PersonEntry(x).Some? ==>
      PersonEntry(x).value == (if HasPerson(x) then Some(PersonUid(x)) else None)
    ensures x.JObj? && (HasPerson(x) ==> Index(x, "person").value.JObj?) ==> PersonEntry(x).Some?
  {
    match x {
      case JObj(fields) =>
        var listed := Iter(x).value;
        if JStr("person") in listed {
          var i :| 0 <= i < |listed| && listed[i] == JStr("person");
          assert Keys(fields)[i] == "person";
        }
        if "person" in Keys(fields) {
          var i :| 0 <= i < |fields| && Keys(fields)[i] == "person";
          assert listed[i] == JStr("person");
        }
      case _ =>
    }
  }

  // ---- `_get_license`

  /** A str becomes a one-element list, a list is returned as it came, and
      anything else gives None. */
  function License(values: Json): (r: Json)
    ensures values.JStr? ==> r == JList([values])
    ensures values.JList? ==> r == values
    ensures !values.JStr? && !values.JList? ==> r == JNull
  {
    match values
    case JStr(_) => JList([values])
    case JList(_) => values
    case _ => JNull
  }
}
