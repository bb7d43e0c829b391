/** The update_issue handler: collect the fields to change and send them to
    the issue. */
module UpdateIssue {
  import opened Values
  import FieldCaches
  import opened FieldMappers

  /** The arguments; a key that is absent is `None`, absent `customFields`
      is `[]`. */
  datatype Args = Args(
    issueKey: Option<string>,
    summary: Option<Value>,
    description: Option<Value>,
    assignee: Option<Value>,
    priority: Option<Value>,
    customFields: Dict<Value>)

  /** The outcomes of `jira.issue(key)` and of `issue.update(...)`; `None`
      when the call succeeds. */
  datatype Jira = Jira(lookup: Option<Exception>, update: Option<Exception>)

  /** The standard updates, in the order of `field_mappings`: summary and
      description as given, assignee by e-mail address, priority by name, each
      only when its argument is present. */
  function StandardUpdates(args: Args): (r: Dict<Value>)
    ensures DistinctKeys(r)
    ensures KeySet(r) == (if args.summary.Some? then {"summary"} else {})
      + (if args.description.Some? then {"description"} else {})
      + (if args.assignee.Some? then {"assignee"} else {})
      + (if args.priority.Some? then {"priority"} else {})
  {
    var s := Optional("summary", args.summary);
    var d := Optional("description", args.description);
    var a := Optional("assignee", Nest("emailAddress", args.assignee));
    var p := Optional("priority", Nest("name", args.priority));
    KeySetAppend(s, d);
    DistinctAppend(s, d);
    KeySetAppend(s + d, a);
    DistinctAppend(s + d, a);
    KeySetAppend(s + d + a, p);
    DistinctAppend(s + d + a, p);
    s + d + a + p
  }

  /** Each standard key carries its argument, nested where Jira expects an
      object. */
  lemma StandardValues(args: Args)
    ensures var r := StandardUpdates(args);
      && Get(r, "summary") == args.summary
      && Get(r, "description") == args.description
      && Get(r, "assignee") == Nest("emailAddress", args.assignee)
      && Get(r, "priority") == Nest("name", args.priority)
  {
    var s := Optional("summary", args.summary);
    var d := Optional("description", args.description);
    var a := Optional("assignee", Nest("emailAddress", args.assignee));
    var p := Optional("priority", Nest("name", args.priority));
    var r := s + (d + (a + p));
    assert StandardUpdates(args) == r;
    GetAppend(s, d + (a + p), "summary");
    GetAppend(d, a + p, "summary");
    GetAppend(a, p, "summary");
    GetAppend(s, d + (a + p), "description");
    GetAppend(d, a + p, "description");
    GetAppend(a, p, "description");
    GetAppend(s, d + (a + p), "assignee");
    GetAppend(d, a + p, "assignee");
    GetAppend(a, p, "assignee");
    GetAppend(s, d + (a + p), "priority");
    GetAppend(d, a + p, "priority");
    GetAppend(a, p, "priority");
  }

  /** The text the handler returns, built by string formatting rather than
      JSON encoding, so the key is inserted as it is. */
  function Done(key: string): string {
    "{\"message\": \"Issue " + key + " updated successfully\"}"
  }

  /** `execute`: the issue key must be non-empty; custom fields are
      translated before the issue is fetched, and errors of either Jira call
      reach the caller unchanged. */
  method Execute(mapper: FieldMapper, args: Args, jira: Jira) returns (r: Result<string>, sent: Option<Dict<Value>>)
    requires mapper.Valid()
    modifies mapper, mapper.jira`calls
    ensures mapper.Valid()
    ensures args.customFields == [] || !Filled(args.issueKey) ==> unchanged(mapper, mapper.jira)
    ensures Filled(args.issueKey) && args.customFields != [] ==> mapper.Loaded()
    ensures !Filled(args.issueKey) ==> r == Err(ValueError("issueKey is required")) && sent == None
    ensures Filled(args.issueKey) && jira.lookup.Some? ==> r == Err(jira.lookup.value) && sent == None
    ensures Filled(args.issueKey) && jira.lookup.None? ==>
      && sent == Some(FieldCaches.MergeCustom(mapper.Cached(), StandardUpdates(args), args.customFields))
      && r == (if jira.update.Some? then Err(jira.update.value) else Ok(Done(args.issueKey.value)))
  {
    if !Filled(args.issueKey) {
      return Err(ValueError("issueKey is required")), None;
    }
    var fields := StandardUpdates(args);
    if args.customFields != [] {
      var translated := mapper.TranslateFields(args.customFields);
      fields := Update(fields, translated);
    }
    if jira.lookup.Some? {
      return Err(jira.lookup.value), None;
    }
    sent := Some(fields);
    r := if jira.update.Some? then Err(jira.update.value) else Ok(Done(args.issueKey.value));
  }

  /** The fields sent: a custom field whose translated key is a standard key
      replaces that value; the other standard values are sent as built. */
  lemma SentFields(fs: seq<FieldCaches.Descriptor>, args: Args, k: string)
    ensures var std := StandardUpdates(args);
      var custom := FieldCaches.TranslateFields(FieldCaches.Build(fs), args.customFields);
      var sent := FieldCaches.MergeCustom(FieldCaches.Build(fs), std, args.customFields);
      && DistinctKeys(sent)
      && KeySet(sent) == KeySet(std) + (set i | 0 <= i < |args.customFields| :: FieldCaches.TranslateKey(FieldCaches.Build(fs), args.customFields[i].0))
      && Get(sent, k) == (if k in KeySet(custom) then Get(custom, k) else Get(std, k))
      && (args.customFields == [] ==> sent == std)
  {
    FieldCaches.MergeCustomGet(FieldCaches.Build(fs), StandardUpdates(args), args.customFields, k);
    FieldCaches.TranslateFieldsKeys(fs, args.customFields);
  }
}
