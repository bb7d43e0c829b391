/** The get_issue handler: an issue's standard fields and its custom fields
    under their friendly names. */
module GetIssue {
  import opened Values
  import opened Strings
  import FieldCaches
  import opened FieldMappers

  datatype Args = Args(
    issueKey: Option<string>,
    includeCustomFields: Option<Value>,
    customFieldsOnly: Option<Value>)

  datatype Comment = Comment(id: Value, author: Value, body: Value, created: Value)
  datatype Attachment = Attachment(id: Value, filename: Value, size: Value, created: Value)

  /** The issue as the Jira client returns it. `priority` and `assignee` are
      `None` when the fields object lacks the attribute; `raw` is the raw
      `fields` dictionary. */
  datatype Issue = Issue(
    key: string,
    summary: Value,
    description: Value,
    status: Value,
    priority: Option<Value>,
    assignee: Option<Value>,
    issueType: Value,
    comments: seq<Comment>,
    attachments: seq<Attachment>,
    raw: Dict<Value>)

  datatype CommentOut = CommentOut(id: Value, author: string, body: Value, created: string)
  datatype AttachmentOut = AttachmentOut(id: Value, filename: Value, size: Value, created: string)

  /** What the handler returns: the custom fields only, the full issue, or
      the text reporting a Unicode error. */
  datatype Output =
    | CustomOnly(key: string, custom: Dict<Value>)
    | Full(
        key: string,
        summary: Value,
        description: Value,
        status: string,
        priority: Option<string>,
        assignee: Option<string>,
        issueType: string,
        comments: seq<CommentOut>,
        attachments: seq<AttachmentOut>,
        customFields: Option<Dict<Value>>)
    | Notice(text: string)

  /** The first of `keys` the dictionary has, with its value. */
  function FirstKey(d: Dict<Value>, keys: seq<string>): (r: Option<Value>)
    ensures r.Some? <==> exists i :: 0 <= i < |keys| && keys[i] in KeySet(d)
    ensures r.Some? ==> exists i :: 0 <= i < |keys| && Get(d, keys[i]) == r && forall j :: 0 <= j < i ==> keys[j] !in KeySet(d)
  {
    if keys == [] then None
    else if Get(d, keys[0]).Some? then Get(d, keys[0])
    else
      var r := FirstKey(d, keys[1..]);
      assert forall i :: 1 <= i < |keys| ==> keys[i] == keys[1..][i - 1];
      r
  }

  /** Of three keys, the first present wins. */
  lemma FirstOfThree(d: Dict<Value>, a: string, b: string, c: string)
    ensures FirstKey(d, [a, b, c]) ==
      if a in KeySet(d) then Get(d, a) else if b in KeySet(d) then Get(d, b) else Get(d, c)
  {
    assert [a, b, c][1..] == [b, c];
    assert [b, c][1..] == [c];
    assert [c][1..] == [];
    assert FirstKey(d, [c]) == Get(d, c);
    assert FirstKey(d, [b, c]) == if Get(d, b).Some? then Get(d, b) else Get(d, c);
  }

  /** `_format_field_value`: lists element by element; a dict becomes its
      `name`, `value` or `displayName` entry, the first it has, or stays; an
      object becomes the text of its `displayName`, `name` or `value`
      attribute, the first it has, or stays; anything else stays. */
  function FormatValue(v: Value): (r: Value)
    ensures v.List? ==> r.List? && |r.items| == |v.items|
    ensures v.List? ==> forall i :: 0 <= i < |v.items| ==> r.items[i] == FormatValue(v.items[i])
    ensures v.Null? || v.Bool? || v.Num? || v.Text? ==> r == v
    ensures v.Mapping? && "name" in KeySet(v.entries) ==> Some(r) == Get(v.entries, "name")
    ensures v.Mapping? && "name" !in KeySet(v.entries) && "value" in KeySet(v.entries) ==> Some(r) == Get(v.entries, "value")
    ensures v.Mapping? && "name" !in KeySet(v.entries) && "value" !in KeySet(v.entries) ==>
      (if "displayName" in KeySet(v.entries) then Some(r) == Get(v.entries, "displayName") else r == v)
    ensures v.Object? && "displayName" in KeySet(v.attrs) ==> r == Text(Show(Get(v.attrs, "displayName").value))
    ensures v.Object? && "displayName" !in KeySet(v.attrs) && "name" in KeySet(v.attrs) ==> r == Text(Show(Get(v.attrs, "name").value))
    ensures v.Object? && "displayName" !in KeySet(v.attrs) && "name" !in KeySet(v.attrs) ==>
      (if "value" in KeySet(v.attrs) then r == Text(Show(Get(v.attrs, "value").value)) else r == v)
    decreases v, 1
  {
    match v
    case List(xs) => List(FormatItems(v, xs))
    case Mapping(es) =>
      FirstOfThree(es, "name", "value", "displayName");
      OrElse(FirstKey(es, ["name", "value", "displayName"]), v)
    case Object(attrs, _) =>
      FirstOfThree(attrs, "displayName", "name", "value");
      var a := FirstKey(attrs, ["displayName", "name", "value"]);
      if a.Some? then Text(Show(a.value)) else v
    case _ => v
  }

  function FormatItems(ghost parent: Value, xs: seq<Value>): (r: seq<Value>)
    requires forall i :: 0 <= i < |xs| ==> xs[i] < parent
    ensures |r| == |xs| && forall i :: 0 <= i < |xs| ==> r[i] == FormatValue(xs[i])
    decreases parent, 0, |xs|
  {
    if xs == [] then []
    else
      assert forall i :: 0 <= i < |xs| - 1 ==> xs[1..][i] == xs[i + 1];
      [FormatValue(xs[0])] + FormatItems(parent, xs[1..])
  }

  /** A raw field the extraction looks at: a custom field with a value. */
  predicate Eligible(p: (string, Value)) {
    StartsWith(p.0, "customfield_") && p.1 != Null
  }

  /** Some raw field is looked at, so the mapper is consulted. */
  predicate AnyEligible(raw: Dict<Value>) {
    exists j :: 0 <= j < |raw| && Eligible(raw[j])
  }

  /** A formatted value the extraction keeps: not None, [] or "". */
  predicate Kept(v: Value) {
    v != Null && v != List([]) && v != Text("")
  }

  /** `_extract_custom_fields` against caches `c`: each eligible field whose
      formatted value is kept, under its friendly name (or its id when the
      name is unknown or empty), a later field overwriting an earlier one of
      the same name. */
  function CustomFieldsOf(c: FieldCaches.Caches, raw: Dict<Value>): Dict<Value>
    decreases |raw|
  {
    if raw == [] then []
    else
      var pre := CustomFieldsOf(c, raw[..|raw| - 1]);
      var p := raw[|raw| - 1];
      if Eligible(p) && Kept(FormatValue(p.1)) then Put(pre, FieldCaches.NameKey(c, p.0), FormatValue(p.1))
      else pre
  }

  /** Without an eligible field the result is empty whatever the caches. */
  lemma {:induction false} NoneEligible(c: FieldCaches.Caches, raw: Dict<Value>)
    requires forall j :: 0 <= j < |raw| ==> !Eligible(raw[j])
    ensures CustomFieldsOf(c, raw) == []
    decreases |raw|
  {
    if raw != [] {
      NoneEligible(c, raw[..|raw| - 1]);
    }
  }

  /** The extracted dict has distinct keys; each pair comes from an eligible
      custom field, keyed by its friendly name, with its formatted value,
      which is never None, [] or ""; and every such field has its key in the
      result. */
  lemma {:induction false} CustomFieldsShape(c: FieldCaches.Caches, raw: Dict<Value>)
    ensures DistinctKeys(CustomFieldsOf(c, raw))
    ensures forall p | p in CustomFieldsOf(c, raw) :: Kept(p.1)
    ensures forall p | p in CustomFieldsOf(c, raw) ::
      exists i :: 0 <= i < |raw| && Eligible(raw[i]) && FieldCaches.NameKey(c, raw[i].0) == p.0 && FormatValue(raw[i].1) == p.1
    ensures forall i :: 0 <= i < |raw| && Eligible(raw[i]) && Kept(FormatValue(raw[i].1)) ==>
      FieldCaches.NameKey(c, raw[i].0) in KeySet(CustomFieldsOf(c, raw))
    decreases |raw|
  {
    if raw != [] {
      var pre := raw[..|raw| - 1];
      var last := raw[|raw| - 1];
      CustomFieldsShape(c, pre);
      var d := CustomFieldsOf(c, pre);
      if Eligible(last) && Kept(FormatValue(last.1)) {
        var k, v := FieldCaches.NameKey(c, last.0), FormatValue(last.1);
        PutDistinct(d, k, v);
        PutKeys(d, k, v);
        forall p | p in Put(d, k, v) ensures Kept(p.1) &&
          exists i :: 0 <= i < |raw| && Eligible(raw[i]) && FieldCaches.NameKey(c, raw[i].0) == p.0 && FormatValue(raw[i].1) == p.1
        {
          FieldCaches.PutMember(d, k, v, p);
          if p == (k, v) {
            assert raw[|raw| - 1] == last;
          } else {
            var i :| 0 <= i < |pre| && Eligible(pre[i]) && FieldCaches.NameKey(c, pre[i].0) == p.0 && FormatValue(pre[i].1) == p.1;
            assert raw[i] == pre[i];
          }
        }
      } else {
        forall p | p in d ensures
          exists i :: 0 <= i < |raw| && Eligible(raw[i]) && FieldCaches.NameKey(c, raw[i].0) == p.0 && FormatValue(raw[i].1) == p.1
        {
          var i :| 0 <= i < |pre| && Eligible(pre[i]) && FieldCaches.NameKey(c, pre[i].0) == p.0 && FormatValue(pre[i].1) == p.1;
          assert raw[i] == pre[i];
        }
      }
      forall i | 0 <= i < |raw| - 1 && Eligible(raw[i]) && Kept(FormatValue(raw[i].1))
        ensures FieldCaches.NameKey(c, raw[i].0) in KeySet(CustomFieldsOf(c, raw))
      {
        assert raw[i] == pre[i];
      }
    }
  }

  /** One more field: it is added under its friendly name when it is eligible
      and its formatted value is kept. */
  lemma ExtendCustom(c: FieldCaches.Caches, raw: Dict<Value>, i: int)
    requires 0 <= i < |raw|
    ensures CustomFieldsOf(c, raw[..i + 1]) ==
      if Eligible(raw[i]) && Kept(FormatValue(raw[i].1))
      then Put(CustomFieldsOf(c, raw[..i]), FieldCaches.NameKey(c, raw[i].0), FormatValue(raw[i].1))
      else CustomFieldsOf(c, raw[..i])
  {
    assert raw[..i + 1][..i] == raw[..i];
  }

  /** `_extract_custom_fields`: the mapper is asked for a name only for
      eligible fields, so it fetches nothing when there are none. */
  method ExtractCustomFields(mapper: FieldMapper, raw: Dict<Value>) returns (r: Dict<Value>)
    requires mapper.Valid()
    modifies mapper, mapper.jira`calls
    ensures mapper.Valid()
    ensures r == CustomFieldsOf(mapper.Cached(), raw)
    ensures (forall j :: 0 <= j < |raw| ==> !Eligible(raw[j])) ==> unchanged(mapper, mapper.jira)
    ensures AnyEligible(raw) ==> mapper.Loaded()
  {
    r := [];
    for i := 0 to |raw|
      invariant mapper.Valid()
      invariant r == CustomFieldsOf(mapper.Cached(), raw[..i])
      invariant !mapper.initialized ==> forall j :: 0 <= j < i ==> !Eligible(raw[j])
      invariant (forall j :: 0 <= j < i ==> !Eligible(raw[j])) ==> unchanged(mapper, mapper.jira)
      invariant (exists j :: 0 <= j < i && Eligible(raw[j])) ==> mapper.Loaded()
    {
      var id, value := raw[i].0, raw[i].1;
      if !StartsWith(id, "customfield_") || value == Null {
        ExtendCustom(mapper.Cached(), raw, i);
        continue;
      }
      ghost var fetched := mapper.initialized;
      ghost var before := mapper.Cached();
      var name := mapper.GetName(id);
      if !fetched {
        NoneEligible(before, raw[..i]);
        NoneEligible(mapper.Cached(), raw[..i]);
      }
      var friendly := if name.Some? && name.value != "" then name.value else id;
      var formatted := FormatValue(value);
      ExtendCustom(mapper.Cached(), raw, i);
      if formatted == Null || formatted == List([]) || formatted == Text("") {
        continue;
      }
      r := Put(r, friendly, formatted);
    }
    assert raw[..|raw|] == raw;
  }

  const Prefix := "Failed to get issue"

  function CommentsOut(cs: seq<Comment>): (r: seq<CommentOut>)
    ensures |r| == |cs|
    ensures forall i :: 0 <= i < |cs| ==>
      r[i] == CommentOut(cs[i].id, Show(cs[i].author), cs[i].body, Show(cs[i].created))
  {
    seq(|cs|, i requires 0 <= i < |cs| => CommentOut(cs[i].id, Show(cs[i].author), cs[i].body, Show(cs[i].created)))
  }

  function AttachmentsOut(as_: seq<Attachment>): (r: seq<AttachmentOut>)
    ensures |r| == |as_|
    ensures forall i :: 0 <= i < |as_| ==>
      r[i] == AttachmentOut(as_[i].id, as_[i].filename, as_[i].size, Show(as_[i].created))
  {
    seq(|as_|, i requires 0 <= i < |as_| => AttachmentOut(as_[i].id, as_[i].filename, as_[i].size, Show(as_[i].created)))
  }

  /** `str(x) if hasattr(fields, attr) else None`. */
  function ShowIfPresent(v: Option<Value>): Option<string> {
    if v.Some? then Some(Show(v.value)) else None
  }

  /** `execute`: the key must be non-empty. A Unicode error of the lookup is
      reported as text, any other failure is wrapped. With
      `customFieldsOnly` only the key and the custom fields come back;
      otherwise the standard fields, plus the custom fields unless
      `includeCustomFields` is false. */
  method Execute(mapper: FieldMapper, args: Args, issue: Result<Issue>) returns (r: Result<Output>)
    requires mapper.Valid()
    modifies mapper, mapper.jira`calls
    ensures mapper.Valid()
    ensures !Filled(args.issueKey) ==> r == Err(ValueError("issueKey is required")) && unchanged(mapper, mapper.jira)
    ensures Filled(args.issueKey) && issue.Err? ==> unchanged(mapper, mapper.jira)
    ensures Filled(args.issueKey) && issue.Err? ==>
      r == if issue.error.UnicodeError? then Ok(Notice("Unicode encoding error while processing the issue: " + issue.error.message))
           else Err(Wrapped(Prefix, issue.error))
    ensures Filled(args.issueKey) && issue.Ok? && AnyEligible(issue.value.raw)
      && (Truthy(OrElse(args.customFieldsOnly, Bool(false))) || Truthy(OrElse(args.includeCustomFields, Bool(true))))
      ==> mapper.Loaded()
    ensures Filled(args.issueKey) && issue.Ok? && Truthy(OrElse(args.customFieldsOnly, Bool(false))) ==>
      r == Ok(CustomOnly(issue.value.key, CustomFieldsOf(mapper.Cached(), issue.value.raw)))
    ensures Filled(args.issueKey) && issue.Ok? && !Truthy(OrElse(args.customFieldsOnly, Bool(false))) ==>
      var i := issue.value;
      var withCustom := Truthy(OrElse(args.includeCustomFields, Bool(true)));
      && (!withCustom ==> unchanged(mapper, mapper.jira))
      && r == Ok(Full(i.key, i.summary, i.description, Show(i.status), ShowIfPresent(i.priority),
                      ShowIfPresent(i.assignee), Show(i.issueType), CommentsOut(i.comments),
                      AttachmentsOut(i.attachments),
                      if withCustom then Some(CustomFieldsOf(mapper.Cached(), i.raw)) else None))
  {
    if !Filled(args.issueKey) {
      return Err(ValueError("issueKey is required"));
    }
    if issue.Err? {
      if issue.error.UnicodeError? {
        return Ok(Notice("Unicode encoding error while processing the issue: " + issue.error.message));
      }
      return Err(Wrapped(Prefix, issue.error));
    }
    var i := issue.value;
    if Truthy(OrElse(args.customFieldsOnly, Bool(false))) {
      var custom := ExtractCustomFields(mapper, i.raw);
      return Ok(CustomOnly(i.key, custom));
    }
    var custom := None;
    if Truthy(OrElse(args.includeCustomFields, Bool(true))) {
      var extracted := ExtractCustomFields(mapper, i.raw);
      custom := Some(extracted);
    }
    r := Ok(Full(i.key, i.summary, i.description, Show(i.status), ShowIfPresent(i.priority),
                  ShowIfPresent(i.assignee), Show(i.issueType), CommentsOut(i.comments),
                  AttachmentsOut(i.attachments), custom));
  }
}
