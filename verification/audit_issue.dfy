/** The audit_issue handler: rate how ready an issue is for work, from its
    description, estimate, epic, priority, assignee and labels. */
module AuditIssue {
  import opened Values
  import opened Strings

  datatype Args = Args(
    issueKey: Option<string>,
    checkDefinitionOfDone: Option<Value>,
    checkAcceptanceCriteria: Option<Value>)

  /** The issue's fields object. `labels` and `components` are `None` when
      the object lacks the attribute; `extra` holds the other attributes the
      object has (custom fields and `parent`), `Null` for a None value. */
  datatype Fields = Fields(
    summary: Value,
    description: Option<string>,
    issueType: Value,
    priority: Value,
    assignee: Value,
    labels: Option<seq<Value>>,
    components: Option<seq<Value>>,
    extra: Dict<Value>)

  /** Problems (`issues`) and recommendations (`suggestions`), in the order
      they were found. */
  datatype Findings = Findings(issues: seq<string>, suggestions: seq<string>)

  function Join2(a: Findings, b: Findings): Findings {
    Findings(a.issues + b.issues, a.suggestions + b.suggestions)
  }

  /** The `metadata` object; a key that was not set is `None`. */
  datatype Metadata = Metadata(
    issueType: string,
    storyPoints: Option<Value>,
    epicLink: Option<Value>,
    priority: Option<string>,
    assignee: Option<Value>,
    labels: Option<seq<Value>>,
    components: Option<seq<string>>)

  datatype Report = Report(
    issueKey: string,
    summary: Value,
    score: int,
    level: string,
    issues: seq<string>,
    suggestions: seq<string>,
    metadata: Metadata,
    quickActions: Option<seq<string>>)

  const AcKeywords: seq<string> := ["acceptance criteria", "given", "when", "then", "ac:", "criteria:"]
  const DodKeywords: seq<string> :=
    ["definition of done", "dod", "done when", "complete when", "\U{2713}", "\U{2611}", "- [x]", "- [ ]"]

  const NoDescription := "No description provided"
  const TooShort := "Description is very short"
  const NoCriteria := "No acceptance criteria found"
  const NoDone := "Consider adding Definition of Done checklist items"
  const NoPoints := "No story points assigned"
  const NoEpic := "Consider linking to an Epic for better tracking"
  const NoPriority := "No priority set"
  const NoAssignee := "Assign to a team member when ready"
  const NoLabels := "Consider adding labels for categorization"

  /** `any(kw in text.lower() for kw in keywords)`. */
  predicate HasAny(text: string, keywords: seq<string>) {
    exists i :: 0 <= i < |keywords| && Contains(Lower(text), keywords[i])
  }

  /** `_check_description_quality`: a missing or empty description is one
      issue and one suggestion and nothing else is checked; otherwise a
      description under 50 characters is an issue, missing acceptance
      criteria are an issue when that check is on, and a missing Definition
      of Done is only ever a suggestion. */
  function DescriptionFindings(desc: Option<string>, dod: bool, ac: bool): (f: Findings)
    ensures !Filled(desc) ==> f == Findings([NoDescription], ["Add a clear description of the work required"])
    ensures Filled(desc) ==> (TooShort in f.issues <==> |desc.value| < 50)
    ensures Filled(desc) ==> (NoCriteria in f.issues <==> ac && !HasAny(desc.value, AcKeywords))
    ensures NoDone in f.suggestions <==> Filled(desc) && dod && !HasAny(desc.value, DodKeywords)
    ensures NoDone !in f.issues && NoDescription !in f.suggestions
    ensures Filled(desc) ==> NoDescription !in f.issues
    ensures |f.suggestions| <= 3 && |f.issues| <= 2
  {
    if !Filled(desc) then Findings([NoDescription], ["Add a clear description of the work required"])
    else
      var d := desc.value;
      var short := if |d| < 50 then Findings([TooShort], ["Expand description with more context"]) else Findings([], []);
      var criteria := if ac && !HasAny(d, AcKeywords)
        then Findings([NoCriteria], ["Add acceptance criteria using Given/When/Then or bullet points"])
        else Findings([], []);
      var done := if dod && !HasAny(d, DodKeywords) then Findings([], [NoDone]) else Findings([], []);
      Join2(Join2(short, criteria), done)
  }

  /** `getattr(fields, a)` is set: present and not None. */
  predicate IsSet(extra: Dict<Value>, a: string) {
    Get(extra, a).Some? && Get(extra, a).value != Null
  }

  /** `names[i]` is set and no earlier candidate is. */
  predicate FirstSetAt(extra: Dict<Value>, names: seq<string>, i: int) {
    0 <= i < |names| && IsSet(extra, names[i]) && forall j :: 0 <= j < i ==> !IsSet(extra, names[j])
  }

  /** The value of the first of `names` that is set. */
  function FirstSet(extra: Dict<Value>, names: seq<string>): (r: Option<Value>)
    ensures r.None? <==> forall i :: 0 <= i < |names| ==> !IsSet(extra, names[i])
    ensures r.Some? ==> exists i :: FirstSetAt(extra, names, i) && Get(extra, names[i]) == r
  {
    if names == [] then None
    else if IsSet(extra, names[0]) then Get(extra, names[0])
    else
      var r := FirstSet(extra, names[1..]);
      FirstSetShift(extra, names);
      r
  }

  /** Past an unset first candidate, the first set one of the rest is the
      first set one of all. */
  lemma FirstSetShift(extra: Dict<Value>, names: seq<string>)
    requires names != [] && !IsSet(extra, names[0])
    ensures forall i :: 0 <= i < |names| - 1 ==> names[1..][i] == names[i + 1]
    ensures forall i :: FirstSetAt(extra, names[1..], i) ==> FirstSetAt(extra, names, i + 1)
  {
    forall i | FirstSetAt(extra, names[1..], i) ensures FirstSetAt(extra, names, i + 1) {
      forall j | 0 <= j < i + 1 ensures !IsSet(extra, names[j]) {
        if j > 0 { assert names[j] == names[1..][j - 1]; }
      }
    }
  }

  /** `_get_custom_field`: the first candidate attribute that is present
      with a value other than None. */
  method GetCustomField(extra: Dict<Value>, names: seq<string>) returns (r: Option<Value>)
    ensures r == FirstSet(extra, names)
    ensures r.Some? ==> r.value != Null
  {
    for i := 0 to |names|
      invariant FirstSet(extra, names) == FirstSet(extra, names[i..])
    {
      var value := Get(extra, names[i]);
      if value.Some? && value.value != Null {
        return value;
      }
      assert names[i..][1..] == names[i + 1..];
    }
    return None;
  }

  const PointsFields: seq<string> := ["customfield_10016", "customfield_10026", "story_points"]
  const EpicFields: seq<string> := ["customfield_10014", "customfield_10008", "parent"]

  /** The issue types that are estimated. */
  predicate Estimable(issueType: string) {
    issueType == "story" || issueType == "task" || issueType == "bug"
  }

  /** What `_check_estimable_fields` finds and records. */
  datatype Estimate = Estimate(findings: Findings, storyPoints: Option<Value>, epicLink: Option<Value>)

  /** An epic recorded by its `key` attribute when it has one, else as text. */
  function EpicLink(epic: Value): Value {
    if epic.Object? && Get(epic.attrs, "key").Some? then Get(epic.attrs, "key").value else Text(Show(epic))
  }

  /** `_check_estimable_fields`: only stories, tasks and bugs are checked;
      missing story points are an issue, a missing epic only a suggestion;
      the first set candidate attribute supplies each value. */
  function EstimableFindings(extra: Dict<Value>, issueType: string): (e: Estimate)
    ensures !Estimable(issueType) ==> e == Estimate(Findings([], []), None, None)
    ensures Estimable(issueType) ==> e.storyPoints == FirstSet(extra, PointsFields)
    ensures Estimable(issueType) ==> (e.findings.issues == [NoPoints] <==> e.storyPoints.None?)
    ensures Estimable(issueType) ==> (NoEpic in e.findings.suggestions <==> FirstSet(extra, EpicFields).None?)
    ensures e.epicLink.Some? <==> Estimable(issueType) && FirstSet(extra, EpicFields).Some?
    ensures e.epicLink.Some? ==> e.epicLink.value == EpicLink(FirstSet(extra, EpicFields).value)
    ensures NoEpic !in e.findings.issues && e.findings.issues in {[], [NoPoints]}
  {
    if !Estimable(issueType) then Estimate(Findings([], []), None, None)
    else
      var points := FirstSet(extra, PointsFields);
      var epic := FirstSet(extra, EpicFields);
      var f1 := if points.None? then Findings([NoPoints], ["Add story point estimate for capacity planning"]) else Findings([], []);
      var f2 := if epic.None? then Findings([], [NoEpic]) else Findings([], []);
      Estimate(Join2(f1, f2), points, if epic.Some? then Some(EpicLink(epic.value)) else None)
  }

  /** `getattr(assignee, "displayName", str(assignee))`. */
  function AssigneeName(a: Value): Value {
    if a.Object? && Get(a.attrs, "displayName").Some? then Get(a.attrs, "displayName").value else Text(Show(a))
  }

  /** The priority, assignee and labels checks of `_check_issue_metadata`:
      a missing priority is an issue, a missing assignee or missing labels
      only suggestions. */
  function UpkeepFindings(f: Fields): (g: Findings)
    ensures g.issues == if Truthy(f.priority) then [] else [NoPriority]
    ensures NoPriority !in g.suggestions
    ensures NoAssignee in g.suggestions <==> !Truthy(f.assignee)
    ensures NoLabels in g.suggestions <==> f.labels.None? || f.labels.value == []
  {
    var p := if Truthy(f.priority) then Findings([], []) else Findings([NoPriority], ["Set priority to help with triage"]);
    var a := if Truthy(f.assignee) then Findings([], []) else Findings([], [NoAssignee]);
    var l := if f.labels.Some? && f.labels.value != [] then Findings([], []) else Findings([], [NoLabels]);
    Join2(Join2(p, a), l)
  }

  /** The metadata `_check_issue_metadata` records: the type's text, what
      the estimate checks found, the priority's text, the assignee's name,
      the labels, and each component's text; a key is present only when
      its value is set. */
  function MetadataOf(f: Fields): (m: Metadata)
    ensures m.issueType == Show(f.issueType)
    ensures m.storyPoints == EstimableFindings(f.extra, Lower(Show(f.issueType))).storyPoints
    ensures m.epicLink == EstimableFindings(f.extra, Lower(Show(f.issueType))).epicLink
    ensures m.priority.Some? <==> Truthy(f.priority)
    ensures m.priority.Some? ==> m.priority.value == Show(f.priority)
    ensures m.assignee.Some? <==> Truthy(f.assignee)
    ensures m.assignee.Some? ==> m.assignee.value == AssigneeName(f.assignee)
    ensures m.labels.Some? <==> f.labels.Some? && f.labels.value != []
    ensures m.labels.Some? ==> m.labels == f.labels
    ensures m.components.Some? <==> f.components.Some? && f.components.value != []
    ensures m.components.Some? ==> f.components.Some? && |m.components.value| == |f.components.value|
    ensures m.components.Some? ==>
      forall i :: 0 <= i < |f.components.value| ==> m.components.value[i] == Show(f.components.value[i])
  {
    var e := EstimableFindings(f.extra, Lower(Show(f.issueType)));
    Metadata(Show(f.issueType), e.storyPoints, e.epicLink,
             if Truthy(f.priority) then Some(Show(f.priority)) else None,
             if Truthy(f.assignee) then Some(AssigneeName(f.assignee)) else None,
             if f.labels.Some? && f.labels.value != [] then f.labels else None,
             if f.components.Some? && f.components.value != []
             then Some(seq(|f.components.value|, i requires 0 <= i < |f.components.value| => Show(f.components.value[i])))
             else None)
  }

  /** `_check_issue_metadata`: the estimate checks for the lower-cased type,
      then the priority, assignee and labels checks; the metadata records
      what was found, components by their text. */
  function MetadataFindings(f: Fields): (r: (Findings, Metadata))
    ensures r.1 == MetadataOf(f)
    ensures r.1.issueType == Show(f.issueType)
    ensures NoPriority in r.0.issues <==> !Truthy(f.priority)
    ensures r.1.priority.Some? <==> Truthy(f.priority)
    ensures NoAssignee in r.0.suggestions <==> !Truthy(f.assignee)
    ensures NoLabels in r.0.suggestions <==> f.labels.None? || f.labels.value == []
    ensures r.1.labels.Some? <==> f.labels.Some? && f.labels.value != []
    ensures r.1.components.Some? ==> f.components.Some? && |r.1.components.value| == |f.components.value|
    ensures NoPoints in r.0.issues <==> Estimable(Lower(Show(f.issueType))) && FirstSet(f.extra, PointsFields).None?
    ensures NoDescription !in r.0.issues
  {
    var e := EstimableFindings(f.extra, Lower(Show(f.issueType)));
    var g := UpkeepFindings(f);
    var fs := Join2(e.findings, g);
    assert fs.issues == e.findings.issues + g.issues && fs.suggestions == e.findings.suggestions + g.suggestions;
    assert NoPriority !in e.findings.issues && NoDescription !in e.findings.issues;
    assert NoPoints !in g.issues && NoDescription !in g.issues;
    (fs, MetadataOf(f))
  }

  /** `_calculate_score`: 100 less 15 per issue and 5 per suggestion, kept
      within 0..100. */
  function Score(issues: nat, suggestions: nat): (s: int)
    ensures 0 <= s <= 100
    ensures s == 100 <==> issues == 0 && suggestions == 0
    ensures s == 0 <==> 15 * issues + 5 * suggestions >= 100
    ensures 0 < s ==> s == 100 - 15 * issues - 5 * suggestions
  {
    var raw := 100 - issues * 15 - suggestions * 5;
    if raw < 0 then 0 else if raw > 100 then 100 else raw
  }

  /** One more finding never raises the score. */
  lemma ScoreMonotone(i1: nat, s1: nat, i2: nat, s2: nat)
    requires i1 <= i2 && s1 <= s2
    ensures Score(i2, s2) <= Score(i1, s1)
  {
  }

  /** The quality level of a score. */
  function Level(score: int): (level: string)
    ensures level == "Excellent" <==> score >= 90
    ensures level == "Good" <==> 75 <= score < 90
    ensures level == "Needs Improvement" <==> 50 <= score < 75
    ensures level == "Poor" <==> score < 50
  {
    if score >= 90 then "Excellent"
    else if score >= 75 then "Good"
    else if score >= 50 then "Needs Improvement"
    else "Poor"
  }

  /** An audit is Excellent exactly when it found no issue and at most two
      suggestions; a single issue caps it at Good. */
  lemma ExcellentIff(issues: nat, suggestions: nat)
    ensures Level(Score(issues, suggestions)) == "Excellent" <==> issues == 0 && suggestions <= 2
    ensures issues > 0 ==> Level(Score(issues, suggestions)) != "Excellent"
  {
    if issues == 0 && suggestions <= 2 {
      assert Score(issues, suggestions) == 100 - 5 * suggestions;
    }
  }

  /** `quickActions`: present exactly when anything was found; it points to
      update_issue for a missing description and for missing story points. */
  function QuickActions(issues: seq<string>, suggestions: seq<string>): (r: Option<seq<string>>)
    ensures r.Some? <==> issues != [] || suggestions != []
    ensures r.Some? ==> ("Use update_issue to add description" in r.value <==> NoDescription in issues)
    ensures r.Some? ==> ("Use update_issue to add story points" in r.value <==> NoPoints in issues)
    ensures r.Some? ==> |r.value| <= 2
  {
    if issues == [] && suggestions == [] then None
    else
      Some((if NoDescription in issues then ["Use update_issue to add description"] else [])
        + (if NoPoints in issues then ["Use update_issue to add story points"] else []))
  }

  const Prefix := "Failed to audit issue"

  /** `execute`: the key must be non-empty; every failure of the lookup is
      wrapped. The findings of the description come first, then those of the
      metadata; score, level and quick actions follow from them. */
  function Audit(args: Args, issue: Result<Fields>): (r: Result<Report>)
    ensures !Filled(args.issueKey) ==> r == Err(ValueError("issueKey is required"))
    ensures Filled(args.issueKey) && issue.Err? ==> r == Err(Wrapped(Prefix, issue.error))
    ensures Filled(args.issueKey) && issue.Ok? ==> r.Ok?
    ensures r.Ok? ==> issue.Ok? && r.value.issueKey == args.issueKey.value
    ensures r.Ok? ==>
      var d := DescriptionFindings(issue.value.description,
        Truthy(OrElse(args.checkDefinitionOfDone, Bool(true))), Truthy(OrElse(args.checkAcceptanceCriteria, Bool(true))));
      var m := MetadataFindings(issue.value);
      && r.value.issues == d.issues + m.0.issues
      && r.value.suggestions == d.suggestions + m.0.suggestions
      && r.value.metadata == m.1
    ensures r.Ok? ==> 0 <= r.value.score <= 100 && r.value.score == Score(|r.value.issues|, |r.value.suggestions|)
    ensures r.Ok? ==> r.value.level == Level(r.value.score)
    ensures r.Ok? ==> r.value.quickActions == QuickActions(r.value.issues, r.value.suggestions)
  {
    if !Filled(args.issueKey) then Err(ValueError("issueKey is required"))
    else if issue.Err? then Err(Wrapped(Prefix, issue.error))
    else
      var f := issue.value;
      var d := DescriptionFindings(f.description,
        Truthy(OrElse(args.checkDefinitionOfDone, Bool(true))), Truthy(OrElse(args.checkAcceptanceCriteria, Bool(true))));
      var m := MetadataFindings(f);
      var issues := d.issues + m.0.issues;
      var suggestions := d.suggestions + m.0.suggestions;
      var score := Score(|issues|, |suggestions|);
      Ok(Report(args.issueKey.value, f.summary, score, Level(score), issues, suggestions, m.1,
                QuickActions(issues, suggestions)))
  }

  /** An issue without a description always gets the description quick
      action and cannot score above 85. */
  lemma NoDescriptionAudit(args: Args, f: Fields)
    requires Filled(args.issueKey) && !Filled(f.description)
    ensures var r := Audit(args, Ok(f));
      && r.Ok? && NoDescription in r.value.issues
      && r.value.quickActions.Some? && "Use update_issue to add description" in r.value.quickActions.value
      && r.value.score <= 85
  {
    var r := Audit(args, Ok(f));
    assert r.value.issues[0] == NoDescription;
  }
}
