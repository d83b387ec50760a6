/** The document-to-records step of the SOCIB `get_metadata`: the decoded
    response's `json_ld` object becomes a table of
    `[schema, element, value, qualifier]` rows. The HTTP request that
    produces the response is not modelled; the decoded body is the input. */
module SocibRecords {
  import opened Wrappers
  import opened Json

  /** One metadata row. The qualifier is always Python None. */
  datatype Record = Record(schema: Json, element: string, value: Json, qualifier: Json)

  /** The rows one top-level key yields: one per item of a list value,
      otherwise a single row holding the value. */
  function RowsOf(schema: Json, key: string, value: Json): (r: seq<Record>)
    ensures value.JList? ==> |r| == |value.items|
    ensures !value.JList? ==> r == [Record(schema, key, value, JNull)]
  {
    match value
    case JList(items) => seq(|items|, i requires 0 <= i < |items| => Record(schema, key, items[i], JNull))
    case _ => [Record(schema, key, value, JNull)]
  }

  /** The rows of all fields, in key order (a decoded object has distinct
      keys, so `json_ld[key]` is the field's own value). */
  function RecordsOf(schema: Json, fields: seq<(string, Json)>): seq<Record>
  {
    if fields == [] then []
    else RecordsOf(schema, fields[..|fields| - 1]) + RowsOf(schema, fields[|fields| - 1].0, fields[|fields| - 1].1)
  }

  /** The whole step: `response['json_ld']['schemaVersion']` is the schema
      of every row; a response without either key raises (None). */
  function MetadataSpec(response: Json): Option<seq<Record>>
  {
    var jsonLd :- Index(response, "json_ld");
    var schema :- Index(jsonLd, "schemaVersion");
    Some(RecordsOf(schema, jsonLd.fields))
  }

  method BuildMetadata(response: Json) returns (r: Option<seq<Record>>)
    ensures r == MetadataSpec(response)
  {
    var jsonLd := Index(response, "json_ld");
    if jsonLd.None? {
      return None;
    }
    var schema := Index(jsonLd.value, "schemaVersion");
    if schema.None? {
      return None;
    }
    var fields := jsonLd.value.fields;
    var metadata: seq<Record> := [];
    var k := 0;
    while k < |fields|
      invariant 0 <= k <= |fields|
      invariant metadata == RecordsOf(schema.value, fields[..k])
    {
      var (key, value) := fields[k];
      assert fields[..k + 1][..k] == fields[..k];
      if value.JList? {
        var j := 0;
        while j < |value.items|
          invariant 0 <= j <= |value.items|
          invariant metadata == RecordsOf(schema.value, fields[..k]) + RowsOf(schema.value, key, value)[..j]
        {
          assert RowsOf(schema.value, key, value)[..j + 1]
            == RowsOf(schema.value, key, value)[..j] + [Record(schema.value, key, value.items[j], JNull)];
          metadata := metadata + [Record(schema.value, key, value.items[j], JNull)];
          j := j + 1;
        }
        assert RowsOf(schema.value, key, value)[..j] == RowsOf(schema.value, key, value);
      } else {
        metadata := metadata + [Record(schema.value, key, value, JNull)];
      }
      k := k + 1;
    }
    assert fields[..k] == fields;
    return Some(metadata);
  }

  /** Rows of consecutive field runs concatenate. */
  lemma {:induction false} RecordsConcat(schema: Json, a: seq<(string, Json)>, b: seq<(string, Json)>)
    ensures RecordsOf(schema, a + b) == RecordsOf(schema, a) + RecordsOf(schema, b)
    decreases |b|
  {
    if b == [] {
      assert a + b == a;
    } else {
      var last := b[|b| - 1];
      var rest := b[..|b| - 1];
      assert (a + b)[..|a + b| - 1] == a + rest;
      assert (a + b)[|a + b| - 1] == last;
      calc {
        RecordsOf(schema, a + b);
        RecordsOf(schema, a + rest) + RowsOf(schema, last.0, last.1);
        { RecordsConcat(schema, a, rest); }
        RecordsOf(schema, a) + RecordsOf(schema, rest) + RowsOf(schema, last.0, last.1);
        RecordsOf(schema, a) + RecordsOf(schema, b);
      }
    }
  }

  /** Every row carries the schema and a None qualifier, and its element is
      one of the object's keys. */
  lemma {:induction false} RecordsShape(schema: Json, fields: seq<(string, Json)>)
    ensures forall rec :: rec in RecordsOf(schema, fields) ==>
      rec.schema == schema && rec.qualifier == JNull && rec.element in Keys(fields)
  {
    if fields != [] {
      var init := fields[..|fields| - 1];
      RecordsShape(schema, init);
      assert forall key :: key in Keys(init) ==> key in Keys(fields) by {
        forall key | key in Keys(init) ensures key in Keys(fields) {
          var i :| 0 <= i < |init| && Keys(init)[i] == key;
          assert Keys(fields)[i] == key;
        }
      }
      assert Keys(fields)[|fields| - 1] == fields[|fields| - 1].0;
    }
  }

  /** A list-valued key yields one row per item, in item order, exactly at
      its place among the other keys' rows. */
  lemma ListFieldExpands(schema: Json, before: seq<(string, Json)>, key: string, items: seq<Json>,
                         after: seq<(string, Json)>)
    ensures RecordsOf(schema, before + [(key, JList(items))] + after)
      == RecordsOf(schema, before)
         + seq(|items|, i requires 0 <= i < |items| => Record(schema, key, items[i], JNull))
         + RecordsOf(schema, after)
  {
    RecordsConcat(schema, before + [(key, JList(items))], after);
    RecordsConcat(schema, before, [(key, JList(items))]);
    assert [(key, JList(items))][..0] == [];
  }

  /** When no value is a list, there is exactly one row per key, in key
      order. */
  lemma {:induction false} ScalarFieldsOneRowEach(schema: Json, fields: seq<(string, Json)>)
    requires forall i :: 0 <= i < |fields| ==> !fields[i].1.JList?
    ensures |RecordsOf(schema, fields)| == |fields|
    ensures forall i :: 0 <= i < |fields| ==>
      RecordsOf(schema, fields)[i] == Record(schema, fields[i].0, fields[i].1, JNull)
  {
    if fields != [] {
      ScalarFieldsOneRowEach(schema, fields[..|fields| - 1]);
    }
  }

  /** `schemaVersion` is itself a key of `json_ld`, so unless it is a list
      it also yields a row of its own. */
  lemma SchemaVersionHasRow(response: Json)
    requires MetadataSpec(response).Some?
    requires !Index(Index(response, "json_ld").value, "schemaVersion").value.JList?
    ensures var schema := Index(Index(response, "json_ld").value, "schemaVersion").value;
      Record(schema, "schemaVersion", schema, JNull) in MetadataSpec(response).value
  {
    var jsonLd := Index(response, "json_ld").value;
    var schema := Index(jsonLd, "schemaVersion").value;
    var fields := jsonLd.fields;
    var k := FirstKey(fields, "schemaVersion");
    assert fields == fields[..k] + [fields[k]] + fields[k + 1..];
    RecordsConcat(schema, fields[..k] + [fields[k]], fields[k + 1..]);
    RecordsConcat(schema, fields[..k], [fields[k]]);
    assert [fields[k]][..0] == [];
  }

  /** The position of the field `Lookup` finds. */
  lemma {:induction false} FirstKey(fields: seq<(string, Json)>, key: string) returns (k: nat)
    requires key in Keys(fields)
    ensures k < |fields| && fields[k].0 == key && fields[k].1 == Lookup(fields, key).value
  {
    assert Keys(fields) == [fields[0].0] + Keys(fields[1..]);
    if fields[0].0 == key {
      k := 0;
    } else {
      var j := FirstKey(fields[1..], key);
      k := j + 1;
    }
  }
}
