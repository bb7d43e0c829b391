/** The get_field_mapping handler: the Jira field list, filtered and cut
    to a limit. It reads `jira.fields()` itself, without FieldMapper. */
module GetFieldMapping {
  import opened Values
  import opened Strings
  import FieldCaches

  /** `search` defaults to "", `customOnly` to false and `limit` to 50. */
  datatype Args = Args(search: Option<string>, customOnly: Option<Value>, limit: Option<int>)

  /** One listed field; `kind` is the schema's type, `None` without a schema. */
  datatype Entry = Entry(name: string, id: string, custom: bool, kind: Option<string>)

  datatype FieldMapping = FieldMapping(fields: seq<Entry>, count: nat, totalAvailable: nat)

  function EntryOf(f: FieldCaches.Descriptor): (e: Entry)
    ensures e.name == f.name && e.id == f.id && (e.custom <==> FieldCaches.IsCustom(f))
    ensures e.kind == if f.schema.Some? then f.schema.value.kind else None
  {
    Entry(f.name, f.id, OrElse(f.custom, false), if f.schema.Some? then f.schema.value.kind else None)
  }

  /** A field passes the filters: custom when `customOnly` is truthy, and
      its name contains `search` ignoring case when `search` is non-empty. */
  predicate Selected(f: FieldCaches.Descriptor, search: string, customOnly: bool) {
    (!customOnly || FieldCaches.IsCustom(f)) && (search == "" || Contains(Lower(f.name), Lower(search)))
  }

  /** The two list comprehensions of `execute`: custom fields only when
      asked, then the name search when given. */
  function Found(fs: seq<FieldCaches.Descriptor>, search: string, customOnly: bool): (r: seq<FieldCaches.Descriptor>)
    ensures |r| <= |fs|
    ensures forall x | x in r :: x in fs && Selected(x, search, customOnly)
    ensures forall j :: 0 <= j < |fs| && Selected(fs[j], search, customOnly) ==> fs[j] in r
    ensures r == Filter(fs, (x: FieldCaches.Descriptor) => Selected(x, search, customOnly))
  {
    var selected := (x: FieldCaches.Descriptor) => Selected(x, search, customOnly);
    var named := (f: FieldCaches.Descriptor) => Contains(Lower(f.name), Lower(search));
    var custom := if customOnly then Filter(fs, FieldCaches.IsCustom) else fs;
    assert forall j :: 0 <= j < |fs| && Selected(fs[j], search, customOnly) ==> fs[j] in custom;
    if customOnly && search != "" then
      FilterFilter(fs, FieldCaches.IsCustom, named, selected);
      Filter(custom, named)
    else if customOnly then
      FilterSame(fs, FieldCaches.IsCustom, selected);
      custom
    else if search != "" then
      FilterSame(fs, named, selected);
      Filter(custom, named)
    else
      assert forall i :: 0 <= i < |fs| ==> selected(fs[i]);
      custom
  }

  /** The fields passing both filters, in Jira's order. */
  function Matches(args: Args, fs: seq<FieldCaches.Descriptor>): seq<FieldCaches.Descriptor> {
    Filter(fs, (x: FieldCaches.Descriptor) => Selected(x, SearchOf(args), CustomOnlyOf(args)))
  }

  /** The name search, empty when not given. */
  function SearchOf(args: Args): string {
    OrElse(args.search, "")
  }

  /** Whether only custom fields are wanted; off when not given. */
  predicate CustomOnlyOf(args: Args) {
    Truthy(OrElse(args.customOnly, Bool(false)))
  }

  /** `execute`: the filters, the slice to `limit` and the formatting; a
      failing `fields()` call is not caught. */
  function Mapping(args: Args, fields: Result<seq<FieldCaches.Descriptor>>): (r: Result<FieldMapping>)
    ensures fields.Err? ==> r == Err(fields.error)
    ensures fields.Ok? ==> r.Ok? && r.value.totalAvailable == |fields.value| && r.value.count == |r.value.fields|
  {
    if fields.Err? then Err(fields.error)
    else
      var search, customOnly := SearchOf(args), CustomOnlyOf(args);
      var kept := Take(Found(fields.value, search, customOnly), OrElse(args.limit, 50));
      var entries := seq(|kept|, i requires 0 <= i < |kept| => EntryOf(kept[i]));
      Ok(FieldMapping(entries, |entries|, |fields.value|))
  }

  /** Every listed field passes the filters and comes from Jira's list. */
  lemma MappingSound(args: Args, fs: seq<FieldCaches.Descriptor>)
    ensures forall e | e in Mapping(args, Ok(fs)).value.fields ::
      exists j :: 0 <= j < |fs| && Selected(fs[j], SearchOf(args), CustomOnlyOf(args)) && e == EntryOf(fs[j])
  {
    var search, customOnly := SearchOf(args), CustomOnlyOf(args);
    var found := Found(fs, search, customOnly);
    var kept := Take(found, OrElse(args.limit, 50));
    var r := Mapping(args, Ok(fs)).value;
    assert |r.fields| == |kept| && forall i :: 0 <= i < |kept| ==> r.fields[i] == EntryOf(kept[i]);
    KeptSound(found, kept, r.fields, fs, search, customOnly);
  }

  /** Entries of a prefix of the selected fields come from selected fields. */
  lemma KeptSound(found: seq<FieldCaches.Descriptor>, kept: seq<FieldCaches.Descriptor>, entries: seq<Entry>,
                  fs: seq<FieldCaches.Descriptor>, search: string, customOnly: bool)
    requires forall x | x in found :: x in fs && Selected(x, search, customOnly)
    requires |kept| <= |found| && kept == found[..|kept|]
    requires |entries| == |kept| && forall i :: 0 <= i < |kept| ==> entries[i] == EntryOf(kept[i])
    ensures forall e | e in entries :: exists j :: 0 <= j < |fs| && Selected(fs[j], search, customOnly) && e == EntryOf(fs[j])
  {
    forall e | e in entries
      ensures exists j :: 0 <= j < |fs| && Selected(fs[j], search, customOnly) && e == EntryOf(fs[j])
    {
      var i :| 0 <= i < |entries| && entries[i] == e;
      assert kept[i] == found[i] && found[i] in found;
      var j :| 0 <= j < |fs| && fs[j] == kept[i];
    }
  }

  /** At most `limit` fields are listed when the limit is not negative:
      exactly `limit` when more fields match, all matches otherwise. */
  lemma MappingBounded(args: Args, fs: seq<FieldCaches.Descriptor>)
    requires OrElse(args.limit, 50) >= 0
    ensures Mapping(args, Ok(fs)).value.count <= OrElse(args.limit, 50)
    ensures var n, m := OrElse(args.limit, 50), |Matches(args, fs)|;
      Mapping(args, Ok(fs)).value.count == if n < m then n else m
  {
    var search, customOnly := SearchOf(args), CustomOnlyOf(args);
    var kept := Take(Found(fs, search, customOnly), OrElse(args.limit, 50));
    assert Mapping(args, Ok(fs)).value.count == |kept|;
  }

  /** The listing is the first `limit` matching fields in Jira's order, as
      Python's `[:limit]` cuts them (a negative limit drops from the end),
      each as its entry. */
  lemma MappingFirst(args: Args, fs: seq<FieldCaches.Descriptor>)
    ensures var n, m := OrElse(args.limit, 50), Matches(args, fs);
      var r := Mapping(args, Ok(fs)).value;
      && |r.fields| == (if n >= 0 then (if n < |m| then n else |m|) else (if |m| + n > 0 then |m| + n else 0))
      && forall i :: 0 <= i < |r.fields| ==> r.fields[i] == EntryOf(m[i])
  {
    var found := Found(fs, SearchOf(args), CustomOnlyOf(args));
    var kept := Take(found, OrElse(args.limit, 50));
    assert found == Matches(args, fs);
    assert kept == found[..|kept|];
  }

  /** When the limit is not reached, every field that passes is listed. */
  lemma MappingComplete(args: Args, fs: seq<FieldCaches.Descriptor>)
    requires OrElse(args.limit, 50) >= |fs|
    ensures forall j :: 0 <= j < |fs| && Selected(fs[j], SearchOf(args), CustomOnlyOf(args)) ==>
      EntryOf(fs[j]) in Mapping(args, Ok(fs)).value.fields
  {
    var search, customOnly := SearchOf(args), CustomOnlyOf(args);
    var found := Found(fs, search, customOnly);
    var kept := Take(found, OrElse(args.limit, 50));
    var r := Mapping(args, Ok(fs)).value;
    assert |r.fields| == |kept| && forall i :: 0 <= i < |kept| ==> r.fields[i] == EntryOf(kept[i]);
    assert |kept| == |found| && kept == found[..|found|] == found;
    forall j | 0 <= j < |fs| && Selected(fs[j], search, customOnly) ensures EntryOf(fs[j]) in r.fields {
      ListedAll(kept, r.fields, fs[j]);
    }
  }

  /** A field that is kept has its entry listed. */
  lemma ListedAll(kept: seq<FieldCaches.Descriptor>, entries: seq<Entry>, x: FieldCaches.Descriptor)
    requires |entries| == |kept| && forall i :: 0 <= i < |kept| ==> entries[i] == EntryOf(kept[i])
    requires x in kept
    ensures EntryOf(x) in entries
  {
    var i :| 0 <= i < |kept| && kept[i] == x;
    assert entries[i] == EntryOf(x);
  }
}
