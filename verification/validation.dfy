/** Vocabulary validation (`_validate_license`, identical in both plugins,
    and EPOS `_validate_format`): for every configured vocabulary id a
    `{valid, non_valid}` pair, filled by looping over the input for the one
    vocabulary each validator implements. The result keeps the order of
    the configured vocabularies, as the Python dict does. The external checks (SPDX lookup,
    the IANA media-type list) are parameters. */
module Validation {
  import opened Seqs
  import Text

  datatype Partition = Partition(valid: seq<string>, nonValid: seq<string>)

  /** The reference split: accepted values in order, rejected values in order. */
  function Split(items: seq<string>, ok: string -> bool): Partition
  {
    Partition(Filter(items, ok), Filter(items, Not(ok)))
  }

  /** What a validator stores for vocabulary `id` when `implemented` is the
      one id it knows: the split for that id, two empty lists otherwise. */
  function Expected(id: string, implemented: string, items: seq<string>, ok: string -> bool): Partition
  {
    if id == implemented then Split(items, ok) else Partition([], [])
  }

  /** The split is a partition of the input that keeps its order: every
      value lands in exactly one list, accepted ones in `valid`. */
  lemma SplitPartitions(items: seq<string>, ok: string -> bool)
    ensures |Split(items, ok).valid| + |Split(items, ok).nonValid| == |items|
    ensures multiset(Split(items, ok).valid) + multiset(Split(items, ok).nonValid) == multiset(items)
    ensures forall x :: x in Split(items, ok).valid <==> x in items && ok(x)
    ensures forall x :: x in Split(items, ok).nonValid <==> x in items && !ok(x)
  {
    FilterSplit(items, ok);
    forall x ensures x in Split(items, ok).valid <==> x in items && ok(x) {
      FilterMembership(items, ok, x);
    }
    forall x ensures x in Split(items, ok).nonValid <==> x in items && !ok(x) {
      FilterMembership(items, Not(ok), x);
    }
  }

  /** Splitting a concatenation splits each part: order is preserved. */
  lemma SplitConcat(items: seq<string>, more: seq<string>, ok: string -> bool)
    ensures Split(items + more, ok).valid == Split(items, ok).valid + Split(more, ok).valid
    ensures Split(items + more, ok).nonValid == Split(items, ok).nonValid + Split(more, ok).nonValid
  {
    FilterConcat(items, more, ok);
    FilterConcat(items, more, Not(ok));
  }

  /** The loop for one vocabulary id: the id's two lists start empty and,
      for the implemented id, each item is appended to one of them. */
  method FillVocabulary(id: string, implemented: string, items: seq<string>, ok: string -> bool)
    returns (part: Partition)
    ensures part == Expected(id, implemented, items, ok)
  {
    part := Partition([], []);
    if id == implemented {
      var i := 0;
      while i < |items|
        invariant 0 <= i <= |items|
        invariant part == Split(items[..i], ok)
      {
        assert items[..i + 1] == items[..i] + [items[i]];
        FilterSnoc(items[..i], items[i], ok);
        FilterSnoc(items[..i], items[i], Not(ok));
        assert Not(ok)(items[i]) == !ok(items[i]);
        if ok(items[i]) {
          part := Partition(part.valid + [items[i]], part.nonValid);
        } else {
          part := Partition(part.valid, part.nonValid + [items[i]]);
        }
        i := i + 1;
      }
      assert items[..i] == items;
    }
  }

  /** The loop over the configured vocabularies, given as the
      `(id, url)` items of the configuration dict in their order: the
      result has one entry per configured id, in the same order, and no
      other entry. */
  method ValidateAll(items: seq<string>, vocabularies: seq<(string, string)>, implemented: string,
                     ok: string -> bool)
    returns (data: seq<(string, Partition)>)
    ensures |data| == |vocabularies|
    ensures forall i :: 0 <= i < |data| ==>
      data[i].0 == vocabularies[i].0 && data[i].1 == Expected(vocabularies[i].0, implemented, items, ok)
  {
    data := [];
    var i := 0;
    while i < |vocabularies|
      invariant 0 <= i <= |vocabularies|
      invariant |data| == i
      invariant forall j :: 0 <= j < i ==>
        data[j].0 == vocabularies[j].0 && data[j].1 == Expected(vocabularies[j].0, implemented, items, ok)
    {
      var id := vocabularies[i].0;
      var part := FillVocabulary(id, implemented, items, ok);
      data := data + [(id, part)];
      i := i + 1;
    }
  }

  /** `_validate_license`: licenses split by the SPDX check under the
      "spdx" id; any other configured id maps to two empty lists. */
  method ValidateLicense(licenses: seq<string>, vocabularies: seq<(string, string)>,
                         isSpdx: (string, bool) -> bool, machineReadable: bool)
    returns (data: seq<(string, Partition)>)
    ensures |data| == |vocabularies|
    ensures forall i :: 0 <= i < |data| ==> data[i].0 == vocabularies[i].0
    ensures forall i :: 0 <= i < |data| && data[i].0 == "spdx" ==>
      data[i].1 == Split(licenses, l => isSpdx(l, machineReadable))
    ensures forall i :: 0 <= i < |data| && data[i].0 != "spdx" ==> data[i].1 == Partition([], [])
  {
    data := ValidateAll(licenses, vocabularies, "spdx", l => isSpdx(l, machineReadable));
  }

  /** A format is valid when its lower-cased spelling is an IANA media type. */
  predicate IsIanaFormat(format: string, iana: set<string>)
  {
    Text.Lower(format) in iana
  }

  /** `_validate_format`: formats split by IANA membership of their
      lower-cased spelling under the "imtypes" id (the original spelling is
      what is stored); any other configured id maps to two empty lists. */
  method ValidateFormat(formats: seq<string>, vocabularies: seq<(string, string)>, iana: set<string>)
    returns (data: seq<(string, Partition)>)
    ensures |data| == |vocabularies|
    ensures forall i :: 0 <= i < |data| ==> data[i].0 == vocabularies[i].0
    ensures forall i :: 0 <= i < |data| && data[i].0 == "imtypes" ==>
      data[i].1 == Split(formats, f => IsIanaFormat(f, iana))
    ensures forall i :: 0 <= i < |data| && data[i].0 != "imtypes" ==> data[i].1 == Partition([], [])
  {
    data := ValidateAll(formats, vocabularies, "imtypes", f => IsIanaFormat(f, iana));
  }

  /** The two lists of the SPDX entry together are the licenses, and a
      license is valid exactly when the SPDX check accepts it. */
  lemma LicensePartition(licenses: seq<string>, isSpdx: (string, bool) -> bool, machineReadable: bool)
    ensures var p := Split(licenses, l => isSpdx(l, machineReadable));
      |p.valid| + |p.nonValid| == |licenses|
      && forall l :: l in p.valid <==> l in licenses && isSpdx(l, machineReadable)
  {
    SplitPartitions(licenses, l => isSpdx(l, machineReadable));
  }

  /** A format stored as valid keeps its original spelling; it is valid
      exactly when its lower-cased spelling is in the IANA set. */
  lemma FormatPartition(formats: seq<string>, iana: set<string>)
    ensures var p := Split(formats, f => IsIanaFormat(f, iana));
      |p.valid| + |p.nonValid| == |formats|
      && forall f :: f in p.valid <==> f in formats && Text.Lower(f) in iana
  {
    SplitPartitions(formats, f => IsIanaFormat(f, iana));
  }
}
