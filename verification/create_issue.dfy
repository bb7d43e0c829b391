/** The create_issue handler: assemble the fields of a new issue and ask
    Jira to create it. */
module CreateIssue {
  import opened Values
  import FieldCaches
  import opened FieldMappers

  /** The arguments; a key that is absent is `None`, absent `customFields`
      is `[]`. */
  datatype Args = Args(
    projectKey: Option<string>,
    summary: Option<string>,
    issueType: Option<string>,
    description: Option<Value>,
    priority: Option<Value>,
    assignee: Option<Value>,
    customFields: Dict<Value>)

  /** What the handler returns: the key, id and URL of the new issue. */
  datatype Created = Created(key: string, id: string, self: string)

  const Required := "projectKey, summary, and issueType are required"

  /** The three pairs `issue_dict` always starts with. */
  function Base(projectKey: string, summary: string, issueType: string): (r: Dict<Value>)
    ensures KeySet(r) == {"project", "summary", "issuetype"} && DistinctKeys(r)
  {
    var r := [("project", Mapping([("key", Text(projectKey))])), ("summary", Text(summary)),
              ("issuetype", Mapping([("name", Text(issueType))]))];
    assert r[0].0 == "project" && r[1].0 == "summary" && r[2].0 == "issuetype";
    r
  }

  /** The standard part of `issue_dict`: project, summary and issue type,
      then description, priority and assignee for each of those arguments
      that is present; no key twice. */
  function StandardFields(projectKey: string, summary: string, issueType: string, args: Args): (r: Dict<Value>)
    ensures DistinctKeys(r)
    ensures KeySet(r) == {"project", "summary", "issuetype"}
      + (if args.description.Some? then {"description"} else {})
      + (if args.priority.Some? then {"priority"} else {})
      + (if args.assignee.Some? then {"assignee"} else {})
  {
    var b := Base(projectKey, summary, issueType);
    var d := Optional("description", args.description);
    var p := Optional("priority", Nest("name", args.priority));
    var a := Optional("assignee", Nest("emailAddress", args.assignee));
    KeySetAppend(b, d);
    DistinctAppend(b, d);
    KeySetAppend(b + d, p);
    DistinctAppend(b + d, p);
    KeySetAppend(b + d + p, a);
    DistinctAppend(b + d + p, a);
    b + d + p + a
  }

  /** The values of the standard fields: the project by key, the summary as
      given, the issue type by name, the description as given, the priority
      by name and the assignee by e-mail address. */
  lemma StandardValues(projectKey: string, summary: string, issueType: string, args: Args)
    ensures var r := StandardFields(projectKey, summary, issueType, args);
      && Get(r, "project") == Some(Mapping([("key", Text(projectKey))]))
      && Get(r, "summary") == Some(Text(summary))
      && Get(r, "issuetype") == Some(Mapping([("name", Text(issueType))]))
      && Get(r, "description") == args.description
      && Get(r, "priority") == Nest("name", args.priority)
      && Get(r, "assignee") == Nest("emailAddress", args.assignee)
  {
    var b := Base(projectKey, summary, issueType);
    var d := Optional("description", args.description);
    var p := Optional("priority", Nest("name", args.priority));
    var a := Optional("assignee", Nest("emailAddress", args.assignee));
    assert b + d + p + a == b + (d + (p + a));
    forall k ensures Get(b + d + p + a, k) == if Get(b, k).Some? then Get(b, k) else Get(d + (p + a), k) {
      GetAppend(b, d + (p + a), k);
    }
    forall k ensures Get(d + (p + a), k) == if k == "description" then args.description
        else if k == "priority" then Nest("name", args.priority)
        else if k == "assignee" then Nest("emailAddress", args.assignee) else None {
      GetAppend(d, p + a, k);
      GetAppend(p, a, k);
    }
    assert Get(b, "project") == Some(Mapping([("key", Text(projectKey))]));
    assert Get(b, "summary") == Some(Text(summary));
    assert Get(b, "issuetype") == Some(Mapping([("name", Text(issueType))]));
    assert Get(b, "description") == None && Get(b, "priority") == None && Get(b, "assignee") == None;
  }

  /** `execute`: the three required arguments must be non-empty; the issue
      dict is the standard fields updated with the translated custom fields.
      Nothing here catches: an error of the create call reaches the caller
      unchanged. The mapper is consulted only for custom fields. */
  method Execute(mapper: FieldMapper, args: Args, created: Result<Created>)
    returns (r: Result<Created>, sent: Option<Dict<Value>>)
    requires mapper.Valid()
    modifies mapper, mapper.jira`calls
    ensures mapper.Valid()
    ensures args.customFields == [] ==> unchanged(mapper, mapper.jira)
    ensures !(Filled(args.projectKey) && Filled(args.summary) && Filled(args.issueType)) ==>
      r == Err(ValueError(Required)) && sent == None && unchanged(mapper, mapper.jira)
    ensures Filled(args.projectKey) && Filled(args.summary) && Filled(args.issueType) && args.customFields != [] ==>
      mapper.Loaded()
    ensures Filled(args.projectKey) && Filled(args.summary) && Filled(args.issueType) ==>
      && r == created
      && sent == Some(FieldCaches.MergeCustom(mapper.Cached(),
           StandardFields(args.projectKey.value, args.summary.value, args.issueType.value, args), args.customFields))
  {
    if !(Filled(args.projectKey) && Filled(args.summary) && Filled(args.issueType)) {
      return Err(ValueError(Required)), None;
    }
    var fields := StandardFields(args.projectKey.value, args.summary.value, args.issueType.value, args);
    if args.customFields != [] {
      var translated := mapper.TranslateFields(args.customFields);
      fields := Update(fields, translated);
    }
    sent := Some(fields);
    r := created;
  }

  /** The fields sent: a custom field whose translated key is one of the
      standard keys replaces that standard value; every other standard value
      is sent as built, and with no custom fields exactly the standard ones
      are sent. */
  lemma SentFields(fs: seq<FieldCaches.Descriptor>, args: Args, k: string)
    requires Filled(args.projectKey) && Filled(args.summary) && Filled(args.issueType)
    ensures var std := StandardFields(args.projectKey.value, args.summary.value, args.issueType.value, args);
      var custom := FieldCaches.TranslateFields(FieldCaches.Build(fs), args.customFields);
      var sent := FieldCaches.MergeCustom(FieldCaches.Build(fs), std, args.customFields);
      && DistinctKeys(sent)
      && KeySet(sent) == KeySet(std) + (set i | 0 <= i < |args.customFields| :: FieldCaches.TranslateKey(FieldCaches.Build(fs), args.customFields[i].0))
      && Get(sent, k) == (if k in KeySet(custom) then Get(custom, k) else Get(std, k))
      && (args.customFields == [] ==> sent == std)
  {
    var std := StandardFields(args.projectKey.value, args.summary.value, args.issueType.value, args);
    FieldCaches.MergeCustomGet(FieldCaches.Build(fs), std, args.customFields, k);
    FieldCaches.TranslateFieldsKeys(fs, args.customFields);
  }
}
