/** Machinery shared by both plugins' `MetadataValues` extractors: a list
    comprehension over the entries of a raw element value, which may keep,
    drop or raise on each entry, and the two extractors whose bodies are
    identical in both plugins (`_get_identifiers_data`, `_get_formats`). */
module Extract {
  import opened Wrappers
  import opened Json
  import opened Seqs

  /** Runs a comprehension over `items`. Per entry `f` returns None when
      Python raises, Some(None) when the entry is filtered out and
      Some(Some(u)) when `u` is emitted. Any raise aborts the whole list. */
  function Collect<U>(items: seq<Json>, f: Json -> Option<Option<U>>): Option<seq<U>>
  {
    if items == [] then Some([])
    else
      var head :- f(items[0]);
      var rest :- Collect(items[1..], f);
      Some((if head.Some? then [head.value] else []) + rest)
  }

  /** A comprehension whose per-entry step keeps `get(x)` exactly when
      `keep(x)` holds succeeds iff no entry raises, and then it is the
      order-preserving filter-then-map of the entries. */
  lemma {:induction false} CollectIsFilterMap<U>(items: seq<Json>, f: Json -> Option<Option<U>>,
                                                 keep: Json -> bool, get: Json -> U)
    requires forall x :: f(x).Some? ==> f(x).value == (if keep(x) then Some(get(x)) else None)
    ensures Collect(items, f).Some? <==> forall i :: 0 <= i < |items| ==> f(items[i]).Some?
    ensures Collect(items, f).Some? ==> Collect(items, f).value == Map(Filter(items, keep), get)
  {
    if items != [] {
      CollectIsFilterMap(items[1..], f, keep, get);
      if f(items[0]).Some? && Collect(items[1..], f).Some? {
        assert forall i :: 1 <= i < |items| ==> items[i] == items[1..][i - 1];
      } else if f(items[0]).Some? {
        var i :| 0 <= i < |items[1..]| && f(items[1..][i]).None?;
        assert f(items[i + 1]).None?;
      }
    }
  }

  /** Runs a comprehension over the entries of a raw value: a value that
      cannot be iterated raises TypeError. */
  function Comprehension<U>(values: Json, f: Json -> Option<Option<U>>): Option<seq<U>>
  {
    var items :- Iter(values);
    Collect(items, f)
  }

  // ---- `_get_identifiers_data`: `[value_data["value"] for value_data in element_values]`

  function IdentifierEntry(x: Json): Option<Option<Json>>
  {
    var v :- Index(x, "value");
    Some(Some(v))
  }

  /** The `"value"` of an entry (None when it has none). */
  function ValueOf(x: Json): Json
  {
    match Index(x, "value")
    case Some(v) => v
    case None => JNull
  }

  function IdentifiersData(values: Json): Option<seq<Json>>
  {
    Comprehension(values, IdentifierEntry)
  }

  /** Identifier extraction succeeds on a list exactly when every entry is
      an object with a "value" key (otherwise a KeyError or TypeError is
      raised), and then it is the entries' values, one per entry, in order. */
  lemma IdentifiersDataSpec(items: seq<Json>)
    ensures IdentifiersData(JList(items)).Some?
      <==> forall i :: 0 <= i < |items| ==> items[i].JObj? && "value" in Keys(items[i].fields)
    ensures IdentifiersData(JList(items)).Some? ==>
      IdentifiersData(JList(items)).value == Map(items, ValueOf)
  {
    CollectIsFilterMap(items, IdentifierEntry, _ => true, ValueOf);
    FilterTrue(items, _ => true);
  }

  // ---- `_get_formats`: `list(filter(None, [value_data.get("format", "") ...]))`

  function FormatEntry(x: Json): Option<Option<Json>>
  {
    var v :- Get(x, "format", JStr(""));
    Some(if Truthy(v) then Some(v) else None)
  }

  /** The `"format"` of an entry, `""` when it has none. */
  function FormatOf(x: Json): Json
  {
    match Get(x, "format", JStr(""))
    case Some(v) => v
    case None => JNull
  }

  /** An entry whose format survives `filter(None, ...)`. */
  predicate HasFormat(x: Json)
  {
    Truthy(FormatOf(x))
  }

  function Formats(values: Json): Option<seq<Json>>
  {
    Comprehension(values, FormatEntry)
  }

  /** Format extraction succeeds on a list exactly when every entry is an
      object (only a dict has `.get`), and then it is the formats of the
      entries whose format is present and non-empty, in order. */
  lemma FormatsSpec(items: seq<Json>)
    ensures Formats(JList(items)).Some? <==> forall i :: 0 <= i < |items| ==> items[i].JObj?
    ensures Formats(JList(items)).Some? ==>
      Formats(JList(items)).value == Map(Filter(items, HasFormat), FormatOf)
  {
    CollectIsFilterMap(items, FormatEntry, HasFormat, FormatOf);
  }

  /** A missing or empty format is dropped: extraction over objects keeps
      exactly the truthy formats. */
  lemma FormatsDropEmpty(items: seq<Json>, x: Json)
    requires forall i :: 0 <= i < |items| ==> items[i].JObj?
    ensures Formats(JList(items)).Some?
    ensures x in Formats(JList(items)).value ==> Truthy(x)
  {
    FormatsSpec(items);
    var kept := Filter(items, HasFormat);
    FilterAll(items, HasFormat);
    if x in Formats(JList(items)).value {
      var k :| 0 <= k < |kept| && Map(kept, FormatOf)[k] == x;
      assert kept[k] in kept;
    }
  }

  // ---- the start/end pair both temporal extractors build

  /** `value_data.get(key, "")`, None when the entry is not a dict. */
  function DateField(x: Json, key: string): Option<Json>
  {
    Get(x, key, JStr(""))
  }
}
