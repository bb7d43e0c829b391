/** The get_create_meta handler: for each issue type of a project, the
    fields its create screen requires and offers, sorted by name. */
module GetCreateMeta {
  import opened Values
  import opened Strings
  import FieldCaches
  import opened FieldMappers
  import opened Records

  datatype Args = Args(projectKey: Option<string>, issueType: Option<string>)

  /** `_format_field_info`'s record. A key that is not set is `None`. */
  datatype FieldInfo = FieldInfo(
    id: string,
    name: string,
    required: bool,
    kind: Option<Value>,
    itemType: Option<Value>,
    allowedValues: Option<seq<Value>>)

  datatype TypeResult = TypeResult(
    name: Option<string>,
    description: string,
    requiredFields: seq<FieldInfo>,
    optionalFields: seq<FieldInfo>,
    totalOptionalFields: nat)

  datatype MetaResult = MetaResult(projectKey: string, projectName: string, issueTypes: seq<TypeResult>)

  const Prefix := "Failed to get create metadata"

  /** `_format_field_info` against caches `c`: the name is the metadata's,
      else the mapper's non-empty name, else the id; the type and item type
      come from a non-empty schema; allowed values are listed only when there
      are 1 to 20 of them. */
  function InfoOf(c: FieldCaches.Caches, id: string, f: FieldMeta): (r: FieldInfo)
    ensures r.id == id
    ensures f.name.Some? ==> r.name == f.name.value
    ensures f.name.None? ==> r.name == FieldCaches.NameKey(c, id)
    ensures r.required <==> f.required == Some(true)
    ensures r.kind.Some? <==> f.schema != []
    ensures r.kind.Some? ==> r.kind.value == OrElse(Get(f.schema, "type"), Text("unknown"))
    ensures r.itemType == if f.schema != [] then Get(f.schema, "items") else None
    ensures r.allowedValues.Some? <==> 1 <= |f.allowedValues| <= 20
    ensures r.allowedValues.Some? ==> r.allowedValues.value == AllowedNames(f.allowedValues)
  {
    FieldInfo(
      id,
      OrElse(f.name, FieldCaches.NameKey(c, id)),
      OrElse(f.required, false),
      if f.schema != [] then Some(OrElse(Get(f.schema, "type"), Text("unknown"))) else None,
      if f.schema != [] then Get(f.schema, "items") else None,
      if 1 <= |f.allowedValues| <= 20 then Some(AllowedNames(f.allowedValues)) else None)
  }

  /** The formatted fields of an issue type, the two system fields skipped. */
  function Infos(c: FieldCaches.Caches, fields: Dict<FieldMeta>): (r: seq<FieldInfo>)
    ensures forall x | x in r :: !IsSystemField(x.id)
    decreases |fields|
  {
    if fields == [] then []
    else
      var pre := Infos(c, fields[..|fields| - 1]);
      var p := fields[|fields| - 1];
      if IsSystemField(p.0) then pre else pre + [InfoOf(c, p.0, p.1)]
  }

  /** The loop of `execute` over one type's fields: required fields in one
      list, the others in the second, both in metadata order. */
  function Split(c: FieldCaches.Caches, fields: Dict<FieldMeta>): (r: (seq<FieldInfo>, seq<FieldInfo>))
    ensures forall x | x in r.0 :: x.required
    ensures forall x | x in r.1 :: !x.required
    decreases |fields|
  {
    if fields == [] then ([], [])
    else
      var (req, opt) := Split(c, fields[..|fields| - 1]);
      var p := fields[|fields| - 1];
      if IsSystemField(p.0) then (req, opt)
      else
        var info := InfoOf(c, p.0, p.1);
        if info.required then (req + [info], opt) else (req, opt + [info])
  }

  /** Every field other than project and issuetype lands in exactly one of
      the two lists: together they are the formatted fields. */
  lemma {:induction false} SplitPartitions(c: FieldCaches.Caches, fields: Dict<FieldMeta>)
    ensures multiset(Split(c, fields).0) + multiset(Split(c, fields).1) == multiset(Infos(c, fields))
    ensures forall x | x in Split(c, fields).0 + Split(c, fields).1 :: !IsSystemField(x.id)
    decreases |fields|
  {
    if fields != [] {
      SplitPartitions(c, fields[..|fields| - 1]);
    }
    var (req, opt) := Split(c, fields);
    forall x | x in req + opt ensures !IsSystemField(x.id) {
      assert x in multiset(req) + multiset(opt);
      assert x in multiset(Infos(c, fields));
    }
  }

  /** An issue type with no field besides project and issuetype. */
  predicate SystemOnly(fields: Dict<FieldMeta>) {
    forall j :: 0 <= j < |fields| ==> IsSystemField(fields[j].0)
  }

  predicate AllSystemOnly(its: seq<IssueTypeMeta>) {
    forall m :: 0 <= m < |its| ==> SystemOnly(its[m].fields)
  }

  /** The types up to `k` are system-only exactly when those before it are
      and type `k` is. */
  lemma AllSystemOnlySnoc(its: seq<IssueTypeMeta>, k: nat)
    requires k < |its|
    ensures AllSystemOnly(its[..k + 1]) <==> AllSystemOnly(its[..k]) && SystemOnly(its[k].fields)
  {
    assert its[..k + 1] == its[..k] + [its[k]];
  }

  /** Without a non-system field nothing is formatted, whatever the caches. */
  lemma {:induction false} OnlySystemFields(c: FieldCaches.Caches, fields: Dict<FieldMeta>)
    requires SystemOnly(fields)
    ensures Split(c, fields) == ([], [])
    decreases |fields|
  {
    if fields != [] {
      OnlySystemFields(c, fields[..|fields| - 1]);
    }
  }

  /** `_format_field_info`: the mapper is always asked for the name, even
      when the metadata has one. */
  method FormatFieldInfo(mapper: FieldMapper, id: string, f: FieldMeta) returns (r: FieldInfo)
    requires mapper.Valid()
    modifies mapper, mapper.jira`calls
    ensures mapper.Loaded()
    ensures r == InfoOf(mapper.Cached(), id, f)
  {
    var mapped := mapper.GetName(id);
    var name := if f.name.Some? then f.name.value
      else if mapped.Some? && mapped.value != "" then mapped.value else id;
    r := FieldInfo(
      id, name, OrElse(f.required, false),
      if f.schema != [] then Some(OrElse(Get(f.schema, "type"), Text("unknown"))) else None,
      if f.schema != [] then Get(f.schema, "items") else None,
      if 1 <= |f.allowedValues| <= 20 then Some(AllowedNames(f.allowedValues)) else None);
  }

  /** The loop over one issue type's fields. */
  method SplitFields(mapper: FieldMapper, fields: Dict<FieldMeta>) returns (req: seq<FieldInfo>, opt: seq<FieldInfo>)
    requires mapper.Valid()
    modifies mapper, mapper.jira`calls
    ensures mapper.Valid()
    ensures (req, opt) == Split(mapper.Cached(), fields)
    ensures old(mapper.initialized) ==> mapper.initialized && mapper.fields == old(mapper.fields)
    ensures !mapper.initialized ==> SystemOnly(fields)
    ensures SystemOnly(fields) ==> unchanged(mapper, mapper.jira)
    ensures !SystemOnly(fields) ==> mapper.Loaded()
  {
    req, opt := [], [];
    for i := 0 to |fields|
      invariant mapper.Valid()
      invariant (req, opt) == Split(mapper.Cached(), fields[..i])
      invariant old(mapper.initialized) ==> mapper.initialized && mapper.fields == old(mapper.fields)
      invariant !mapper.initialized ==> forall j :: 0 <= j < i ==> IsSystemField(fields[j].0)
      invariant (forall j :: 0 <= j < i ==> IsSystemField(fields[j].0)) ==> unchanged(mapper, mapper.jira)
      invariant (exists j :: 0 <= j < i && !IsSystemField(fields[j].0)) ==> mapper.Loaded()
    {
      assert fields[..i + 1][..i] == fields[..i];
      var id, f := fields[i].0, fields[i].1;
      if IsSystemField(id) {
        continue;
      }
      ghost var fetched := mapper.initialized;
      ghost var before := mapper.Cached();
      var info := FormatFieldInfo(mapper, id, f);
      if !fetched {
        OnlySystemFields(before, fields[..i]);
        OnlySystemFields(mapper.Cached(), fields[..i]);
      }
      if info.required {
        req := req + [info];
      } else {
        opt := opt + [info];
      }
    }
    assert fields[..|fields|] == fields;
  }

  /** `sort(key=lambda x: x["name"])`: ascending names. */
  predicate SortedByName(s: seq<FieldInfo>) {
    forall i, j :: 0 <= i < j < |s| ==> LexLe(s[i].name, s[j].name)
  }

  /** Put `x` before the first element whose name is not smaller, so that
      equal names keep their order. */
  function Insert(x: FieldInfo, s: seq<FieldInfo>): (r: seq<FieldInfo>)
    requires SortedByName(s)
    ensures SortedByName(r)
    ensures multiset(r) == multiset(s) + multiset{x}
    decreases |s|
  {
    if s == [] then [x]
    else if LexLe(x.name, s[0].name) then
      assert forall j :: 0 <= j < |s| ==> LexLe(x.name, s[j].name) by {
        forall j | 0 <= j < |s| ensures LexLe(x.name, s[j].name) {
          if j > 0 { LexLeTransitive(x.name, s[0].name, s[j].name); }
        }
      }
      ConsSorted(x, s);
      [x] + s
    else
      var rest := Insert(x, s[1..]);
      assert s == [s[0]] + s[1..];
      HeadBoundsInsert(x, s, rest);
      ConsSorted(s[0], rest);
      [s[0]] + rest
  }

  /** A sorted list stays sorted with an element in front that is not
      larger than any of its elements. */
  lemma ConsSorted(a: FieldInfo, s: seq<FieldInfo>)
    requires SortedByName(s)
    requires forall j :: 0 <= j < |s| ==> LexLe(a.name, s[j].name)
    ensures SortedByName([a] + s)
  {
    var r := [a] + s;
    forall i, j | 0 <= i < j < |r| ensures LexLe(r[i].name, r[j].name) {
      assert r[j] == s[j - 1];
      if i > 0 { assert r[i] == s[i - 1]; }
    }
  }

  /** When `x` goes after the head of a sorted list, the head is not larger
      than anything in the insertion of `x` into the tail. */
  lemma HeadBoundsInsert(x: FieldInfo, s: seq<FieldInfo>, rest: seq<FieldInfo>)
    requires SortedByName(s) && s != [] && !LexLe(x.name, s[0].name)
    requires multiset(rest) == multiset(s[1..]) + multiset{x}
    ensures forall j :: 0 <= j < |rest| ==> LexLe(s[0].name, rest[j].name)
  {
    LexLeTotal(x.name, s[0].name);
    forall j | 0 <= j < |rest| ensures LexLe(s[0].name, rest[j].name) {
      var y := rest[j];
      assert y in multiset(rest);
      if y != x {
        assert y in multiset(s[1..]);
        var k :| 0 <= k < |s[1..]| && s[1..][k] == y;
        assert s[k + 1] == y;
      }
    }
  }

  /** The fields sorted by name: ordered, and the same fields as before. */
  function SortByName(s: seq<FieldInfo>): (r: seq<FieldInfo>)
    ensures SortedByName(r)
    ensures multiset(r) == multiset(s) && |r| == |s|
    decreases |s|
  {
    if s == [] then []
    else
      assert s == [s[0]] + s[1..];
      Insert(s[0], SortByName(s[1..]))
  }

  /** A prefix of a sorted list is sorted, and nothing after it sorts before
      anything in it. */
  lemma SortedPrefix(s: seq<FieldInfo>, n: nat)
    requires SortedByName(s) && n <= |s|
    ensures SortedByName(s[..n]) && multiset(s[..n]) <= multiset(s)
    ensures forall i, f | 0 <= i < n && f in multiset(s) - multiset(s[..n]) :: LexLe(s[i].name, f.name)
  {
    var rest := s[n..];
    assert s == s[..n] + rest;
    forall i, f | 0 <= i < n && f in multiset(s) - multiset(s[..n]) ensures LexLe(s[i].name, f.name) {
      assert multiset(s) - multiset(s[..n]) == multiset(rest);
      var k :| 0 <= k < |rest| && rest[k] == f;
      assert f == s[n + k];
    }
  }

  /** What one issue type reports: both lists sorted by name, at most 15
      optional fields, and how many optional fields there are in all. */
  function TypeResultOf(it: IssueTypeMeta, req: seq<FieldInfo>, opt: seq<FieldInfo>): (r: TypeResult)
    ensures SortedByName(r.requiredFields) && multiset(r.requiredFields) == multiset(req)
    ensures SortedByName(r.optionalFields) && |r.optionalFields| == if |opt| < 15 then |opt| else 15
    ensures multiset(r.optionalFields) <= multiset(opt)
    ensures r.optionalFields == SortByName(opt)[..|r.optionalFields|]
    ensures forall i, f | 0 <= i < |r.optionalFields| && f in multiset(opt) - multiset(r.optionalFields) ::
      LexLe(r.optionalFields[i].name, f.name)
    ensures r.totalOptionalFields == |opt|
    ensures r.name == it.name && r.description == OrElse(it.description, "")
  {
    var sorted := SortByName(opt);
    var shown := Take(sorted, 15);
    SortedPrefix(sorted, |shown|);
    TypeResult(it.name, OrElse(it.description, ""), SortByName(req), shown, |opt|)
  }

  /** The per-type results against caches `c`. */
  function TypeResults(c: FieldCaches.Caches, its: seq<IssueTypeMeta>): (r: seq<TypeResult>)
    ensures |r| == |its|
    decreases |its|
  {
    if its == [] then []
    else
      var (req, opt) := Split(c, its[|its| - 1].fields);
      TypeResults(c, its[..|its| - 1]) + [TypeResultOf(its[|its| - 1], req, opt)]
  }

  lemma TypeResultsSnoc(c: FieldCaches.Caches, its: seq<IssueTypeMeta>, k: nat)
    requires k < |its|
    ensures TypeResults(c, its[..k + 1]) ==
      TypeResults(c, its[..k]) + [TypeResultOf(its[k], Split(c, its[k].fields).0, Split(c, its[k].fields).1)]
  {
    assert its[..k + 1][..k] == its[..k];
  }

  /** No issue type with a non-system field: the results do not depend on
      the caches. */
  lemma {:induction false} TypeResultsWithoutFields(c: FieldCaches.Caches, d: FieldCaches.Caches, its: seq<IssueTypeMeta>)
    requires AllSystemOnly(its)
    ensures TypeResults(c, its) == TypeResults(d, its)
    decreases |its|
  {
    if its != [] {
      TypeResultsWithoutFields(c, d, its[..|its| - 1]);
      OnlySystemFields(c, its[|its| - 1].fields);
      OnlySystemFields(d, its[|its| - 1].fields);
    }
  }

  /** `', '.join(names)`: a missing name makes `join` fail on that item. */
  function JoinNames(names: seq<Option<string>>): (r: Result<string>)
    ensures (forall i :: 0 <= i < |names| ==> names[i].Some?) <==> r.Ok?
    ensures r.Err? ==> r.error.OtherError?
  {
    var i := FirstWhere(names, (n: Option<string>) => n.None?);
    if i < |names| then Err(OtherError("sequence item " + NatToString(i) + ": expected str instance, NoneType found"))
    else Ok(Join(seq(|names|, j requires 0 <= j < |names| => names[j].value), ", "))
  }

  /** The issue types kept by the `issueType` argument: all of them without
      it, else those whose name equals it up to case. */
  function Selected(its: seq<IssueTypeMeta>, filter: Option<string>): (r: seq<IssueTypeMeta>)
    ensures !Filled(filter) ==> r == its
    ensures Filled(filter) ==> forall x | x in r :: x in its && NamedLike(x, Lower(filter.value))
    ensures Filled(filter) ==> forall x | x in its && NamedLike(x, Lower(filter.value)) :: x in r
    decreases |its|
  {
    if !Filled(filter) then its
    else if its == [] then []
    else
      var pre := Selected(its[..|its| - 1], filter);
      assert forall x | x in its[..|its| - 1] :: x in its;
      assert its == its[..|its| - 1] + [its[|its| - 1]];
      if NamedLike(its[|its| - 1], Lower(filter.value)) then pre + [its[|its| - 1]] else pre
  }

  /** The loop of `execute` over the selected issue types. */
  method ClassifyTypes(mapper: FieldMapper, its: seq<IssueTypeMeta>) returns (results: seq<TypeResult>)
    requires mapper.Valid()
    modifies mapper, mapper.jira`calls
    ensures mapper.Valid()
    ensures results == TypeResults(mapper.Cached(), its)
    ensures AllSystemOnly(its) ==> unchanged(mapper, mapper.jira)
    ensures !AllSystemOnly(its) ==> mapper.Loaded()
  {
    results := [];
    for k := 0 to |its|
      invariant mapper.Valid()
      invariant results == TypeResults(mapper.Cached(), its[..k])
      invariant !mapper.initialized ==> AllSystemOnly(its[..k])
      invariant AllSystemOnly(its[..k]) ==> unchanged(mapper, mapper.jira)
      invariant !AllSystemOnly(its[..k]) ==> mapper.Loaded()
    {
      ghost var fetched := mapper.initialized;
      ghost var before := mapper.Cached();
      ghost var done := its[..k];
      var req, opt := SplitFields(mapper, its[k].fields);
      if !fetched {
        TypeResultsWithoutFields(before, mapper.Cached(), done);
      }
      TypeResultsSnoc(mapper.Cached(), its, k);
      results := results + [TypeResultOf(its[k], req, opt)];
      AllSystemOnlySnoc(its, k);
    }
    assert its[..|its|] == its;
  }

  /** `execute`. The project key must be non-empty; ValueErrors pass
      through and other failures are wrapped. The first project returned is
      used; an `issueType` that matches none of its types is an error listing
      the available names. */
  method Execute(mapper: FieldMapper, args: Args, meta: Result<CreateMeta>) returns (r: Result<MetaResult>)
    requires mapper.Valid()
    modifies mapper, mapper.jira`calls
    ensures mapper.Valid()
    ensures !Filled(args.projectKey) ==> r == Err(ValueError("projectKey is required"))
    ensures Filled(args.projectKey) && meta.Err? ==> r == Err(Reraised(Prefix, meta.error))
    ensures Filled(args.projectKey) && meta.Ok? && meta.value.projects == [] ==>
      r == Err(ValueError("Project " + args.projectKey.value + " not found or no access"))
    ensures r.Err? ==> unchanged(mapper, mapper.jira)
    ensures Filled(args.projectKey) && meta.Ok? && meta.value.projects != [] ==>
      var project := meta.value.projects[0];
      var its := Selected(project.issueTypes, args.issueType);
      && (Filled(args.issueType) && its == [] ==>
            var names := JoinNames(TypeNames(project.issueTypes));
            r == Err(if names.Ok?
                     then ValueError("Issue type '" + args.issueType.value + "' not found. Available: " + names.value)
                     else Reraised(Prefix, names.error)))
      && (!Filled(args.issueType) || its != [] ==>
            && r == Ok(MetaResult(args.projectKey.value, OrElse(project.name, args.projectKey.value),
                                  TypeResults(mapper.Cached(), its)))
            && (AllSystemOnly(its) ==> unchanged(mapper, mapper.jira))
            && (!AllSystemOnly(its) ==> mapper.Loaded()))
  {
    if !Filled(args.projectKey) {
      return Err(ValueError("projectKey is required"));
    }
    var key := args.projectKey.value;
    if meta.Err? {
      return Err(Reraised(Prefix, meta.error));
    }
    if meta.value.projects == [] {
      return Err(ValueError("Project " + key + " not found or no access"));
    }
    var project := meta.value.projects[0];
    var its := Selected(project.issueTypes, args.issueType);
    if Filled(args.issueType) && its == [] {
      var names := JoinNames(TypeNames(project.issueTypes));
      if names.Err? {
        return Err(Reraised(Prefix, names.error));
      }
      return Err(ValueError("Issue type '" + args.issueType.value + "' not found. Available: " + names.value));
    }
    var results := ClassifyTypes(mapper, its);
    r := Ok(MetaResult(key, OrElse(project.name, key), results));
  }
}
