/** The suggest_issue_fields handler: what to fill in when creating an
    issue of a given type. */
module SuggestIssueFields {
  import opened Values
  import opened Strings
  import opened Records

  datatype Args = Args(projectKey: Option<string>, issueType: Option<string>)

  datatype Recommendation = Recommendation(field: string, reason: string, suggestedValues: Option<seq<int>>)

  /** A field entry of the suggestion; `allowedValues` is `None` when not set. */
  datatype SuggestedField = SuggestedField(id: string, name: string, allowedValues: Option<seq<Value>>)

  /** An open epic: its key and summary. */
  datatype Epic = Epic(key: string, summary: string)

  datatype Outcome =
    | TypeNotFound(error: string, availableTypes: seq<Option<string>>)
    | Suggestion(
        projectKey: string,
        issueType: string,
        requiredFields: seq<SuggestedField>,
        recommendations: seq<Recommendation>,
        availableEpics: Option<seq<Epic>>,
        tips: seq<string>)

  const Prefix := "Failed to get suggestions"

  /** `_get_recommendations`: a fixed table keyed by the lower-cased type. */
  function Recommendations(lowered: string): (r: seq<Recommendation>)
    ensures lowered == "story" || lowered == "user story" ==>
      |r| == 2 && r[0].field == "Story Points" && r[0].suggestedValues == Some([1, 2, 3, 5, 8, 13])
      && r[1].field == "Epic Link"
    ensures lowered == "bug" ==> |r| == 2 && r[0].field == "Priority" && r[1].field == "Steps to Reproduce"
    ensures lowered == "task" ==> |r| == 1 && r[0].field == "Story Points" && r[0].suggestedValues == Some([1, 2, 3, 5])
    ensures lowered == "epic" ==> |r| == 1 && r[0].field == "Epic Name"
    ensures r == [] <==> lowered !in {"story", "user story", "bug", "task", "epic"}
  {
    if lowered == "story" || lowered == "user story" then
      [Recommendation("Story Points", "Helps with sprint planning", Some([1, 2, 3, 5, 8, 13])),
       Recommendation("Epic Link", "Stories should belong to an epic", None)]
    else if lowered == "bug" then
      [Recommendation("Priority", "Helps triage bugs", None),
       Recommendation("Steps to Reproduce", "Add to description for faster debugging", None)]
    else if lowered == "task" then
      [Recommendation("Story Points", "Tasks benefit from estimation", Some([1, 2, 3, 5]))]
    else if lowered == "epic" then
      [Recommendation("Epic Name", "Short name for linked issues", None)]
    else []
  }

  /** The non-required fields worth offering. */
  predicate Offered(id: string) {
    id == "priority" || id == "labels" || id == "components"
  }

  /** One field's entry: its name (else its id) and, for 1 to 10 allowed
      values, their names. */
  function EntryOf(id: string, f: FieldMeta): (e: SuggestedField)
    ensures e.id == id && e.name == OrElse(f.name, id)
    ensures e.allowedValues.Some? <==> 1 <= |f.allowedValues| <= 10
    ensures e.allowedValues.Some? ==> e.allowedValues.value == AllowedNames(f.allowedValues)
  {
    SuggestedField(id, OrElse(f.name, id), if 1 <= |f.allowedValues| <= 10 then Some(AllowedNames(f.allowedValues)) else None)
  }

  /** A field listed as required: not project or issuetype, and required. */
  predicate IsRequired(p: (string, FieldMeta)) {
    !IsSystemField(p.0) && p.1.required == Some(true)
  }

  /** A field listed as optional: priority, labels or components, not required. */
  predicate IsOptional(p: (string, FieldMeta)) {
    Offered(p.0) && p.1.required != Some(true)
  }

  /** `_extract_fields` as a specification: required fields, and the
      non-required priority, labels and components; project and issuetype
      never. */
  function Extracted(fields: Dict<FieldMeta>): (r: (seq<SuggestedField>, seq<SuggestedField>))
    decreases |fields|
  {
    if fields == [] then ([], [])
    else
      var (req, opt) := Extracted(fields[..|fields| - 1]);
      var p := fields[|fields| - 1];
      if IsSystemField(p.0) then (req, opt)
      else if p.1.required == Some(true) then (req + [EntryOf(p.0, p.1)], opt)
      else if Offered(p.0) then (req, opt + [EntryOf(p.0, p.1)])
      else (req, opt)
  }

  /** Every required entry is a required non-system field and every optional
      entry a non-required priority, labels or components field; each such
      field has its entry. */
  lemma {:induction false} ExtractedFrom(fields: Dict<FieldMeta>)
    ensures forall e | e in Extracted(fields).0 ::
      exists i :: 0 <= i < |fields| && IsRequired(fields[i]) && e == EntryOf(fields[i].0, fields[i].1)
    ensures forall e | e in Extracted(fields).1 ::
      exists i :: 0 <= i < |fields| && IsOptional(fields[i]) && e == EntryOf(fields[i].0, fields[i].1)
    ensures forall i :: 0 <= i < |fields| && IsRequired(fields[i]) ==> EntryOf(fields[i].0, fields[i].1) in Extracted(fields).0
    ensures forall i :: 0 <= i < |fields| && IsOptional(fields[i]) ==> EntryOf(fields[i].0, fields[i].1) in Extracted(fields).1
    decreases |fields|
  {
    if fields != [] {
      var pre := fields[..|fields| - 1];
      ExtractedFrom(pre);
      assert forall i :: 0 <= i < |pre| ==> pre[i] == fields[i];
    }
  }

  /** `_extract_fields`, loop by loop. */
  method ExtractFields(fields: Dict<FieldMeta>) returns (req: seq<SuggestedField>, opt: seq<SuggestedField>)
    ensures (req, opt) == Extracted(fields)
  {
    req, opt := [], [];
    for i := 0 to |fields|
      invariant (req, opt) == Extracted(fields[..i])
    {
      assert fields[..i + 1][..i] == fields[..i];
      var id, info := fields[i].0, fields[i].1;
      if id == "project" || id == "issuetype" {
        continue;
      }
      var entry := SuggestedField(id, OrElse(info.name, id),
        if 1 <= |info.allowedValues| <= 10 then Some(AllowedNames(info.allowedValues)) else None);
      if info.required == Some(true) {
        req := req + [entry];
      } else if id == "priority" || id == "labels" || id == "components" {
        opt := opt + [entry];
      }
    }
    assert fields[..|fields|] == fields;
  }

  /** The search `_get_available_epics` runs (with at most 5 results). */
  function EpicQuery(projectKey: string): string {
    "project = " + projectKey + " AND issuetype = Epic AND status != Done ORDER BY created DESC"
  }

  const Tips: seq<string> := ["Use get_create_meta for full field details", "Custom fields can use friendly names"]

  /** `execute`. Both arguments must be non-empty; ValueErrors, "project not
      found" among them, pass through and other failures are wrapped. An
      unknown type is answered with an error object, not raised. Open epics
      are looked up only for types other than epic, a failed lookup counting
      as none, and listed only when there are some. */
  method Execute(args: Args, meta: Result<CreateMeta>, epics: Result<seq<Epic>>)
    returns (r: Result<Outcome>, searched: Option<string>)
    ensures !Filled(args.projectKey) ==> r == Err(ValueError("projectKey is required"))
    ensures Filled(args.projectKey) && !Filled(args.issueType) ==> r == Err(ValueError("issueType is required"))
    ensures Filled(args.projectKey) && Filled(args.issueType) && meta.Err? ==> r == Err(Reraised(Prefix, meta.error))
    ensures Filled(args.projectKey) && Filled(args.issueType) && meta.Ok? && meta.value.projects == [] ==>
      r == Err(ValueError("Project " + args.projectKey.value + " not found"))
    ensures r.Ok? <==> Filled(args.projectKey) && Filled(args.issueType) && meta.Ok? && meta.value.projects != []
    ensures r.Ok? ==>
      var its := meta.value.projects[0].issueTypes;
      var lowered := Lower(args.issueType.value);
      var i := FirstWhere(its, (it: IssueTypeMeta) => NamedLike(it, lowered));
      && (i == |its| ==> r.value == TypeNotFound("Issue type '" + args.issueType.value + "' not found", TypeNames(its)))
      && (i < |its| ==>
            (r.value.Suggestion?
             && r.value.projectKey == args.projectKey.value && r.value.issueType == args.issueType.value
             && r.value.requiredFields == Extracted(its[i].fields).0
             && r.value.recommendations == Recommendations(lowered)
             && r.value.tips == Tips))
    ensures searched.Some? <==> r.Ok? && r.value.Suggestion? && Lower(args.issueType.value) != "epic"
    ensures searched.Some? ==> searched.value == EpicQuery(args.projectKey.value)
    ensures r.Ok? && r.value.Suggestion? ==>
      (r.value.availableEpics.Some? <==> searched.Some? && epics.Ok? && epics.value != [])
      && (r.value.availableEpics.Some? ==> r.value.availableEpics.value == epics.value)
  {
    searched := None;
    if !Filled(args.projectKey) {
      return Err(ValueError("projectKey is required")), None;
    }
    if !Filled(args.issueType) {
      return Err(ValueError("issueType is required")), None;
    }
    var key, kind := args.projectKey.value, args.issueType.value;
    if meta.Err? {
      return Err(Reraised(Prefix, meta.error)), None;
    }
    if meta.value.projects == [] {
      return Err(ValueError("Project " + key + " not found")), None;
    }
    var its := meta.value.projects[0].issueTypes;
    var lowered := Lower(kind);
    var i := FirstWhere(its, (it: IssueTypeMeta) => NamedLike(it, lowered));
    if i == |its| {
      return Ok(TypeNotFound("Issue type '" + kind + "' not found", TypeNames(its))), None;
    }
    var req, _ := ExtractFields(its[i].fields);
    var available := None;
    if lowered != "epic" {
      searched := Some(EpicQuery(key));
      var found := if epics.Ok? then epics.value else [];
      if found != [] {
        available := Some(found);
      }
    }
    r := Ok(Suggestion(key, kind, req, Recommendations(lowered), available, Tips));
  }
}
