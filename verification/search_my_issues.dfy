/** The search_my_issues handler: the caller's own issues, ready to be
    quoted in a commit message. */
module SearchMyIssues {
  import opened Values
  import opened Strings
  import opened Searches

  /** `status` defaults to "in_progress", `role` to "assignee" and
      `maxResults` to 10; no argument is required. */
  datatype Args = Args(projectKey: Option<string>, status: Option<string>, role: Option<string>, maxResults: Option<int>)

  datatype IssueInfo = IssueInfo(key: string, summary: string, status: string, issueType: string, project: string, commitFormat: string)

  datatype Listing = Listing(
    count: nat,
    issues: seq<IssueInfo>,
    projectFilter: Option<string>,
    statusFilter: string,
    roleFilter: string,
    hint: Option<string>)

  const Prefix := "Failed to search issues"
  const Order := "ORDER BY updated DESC"
  const Fields := "summary,status,issuetype,priority,project"

  /** The role clause; any role other than the three named matches all three. */
  function RoleClause(role: string): string {
    if role == "assignee" then "assignee = currentUser()"
    else if role == "reporter" then "reporter = currentUser()"
    else if role == "watcher" then "watcher = currentUser()"
    else "(assignee = currentUser() OR reporter = currentUser() OR watcher = currentUser())"
  }

  const InProgress := "status = \"In Progress\""
  const NotDone := "status != Done AND status != Closed"

  /** The status clause, if any: "in_progress" and "open" have one. */
  function StatusClause(status: string): seq<string> {
    if status == "in_progress" then [InProgress]
    else if status == "open" then [NotDone]
    else []
  }

  function ProjectClause(projectKey: Option<string>): seq<string> {
    if Filled(projectKey) then ["project = " + projectKey.value] else []
  }

  /** The query: role, then project when given, then status, most recently
      updated first. */
  function MyJql(projectKey: Option<string>, status: string, role: string): string {
    Assemble([RoleClause(role)] + ProjectClause(projectKey) + StatusClause(status) + [Order])
  }

  /** The role clause always comes first, every clause is kept, and the
      order comes last. */
  lemma MyJqlClauses(projectKey: Option<string>, status: string, role: string)
    ensures var q := MyJql(projectKey, status, role);
      && StartsWith(q, RoleClause(role))
      && (Filled(projectKey) ==> Contains(q, "project = " + projectKey.value))
      && (status == "in_progress" ==> Contains(q, InProgress))
      && (status == "open" ==> Contains(q, NotDone))
      && OccursAt(q, Order, |q| - |Order|)
  {
    var parts := [RoleClause(role)] + ProjectClause(projectKey) + StatusClause(status) + [Order];
    AssembleKeepsParts(parts);
    StartsWithFirst(parts);
    assert parts[|parts| - 1] == Order;
    if Filled(projectKey) {
      assert parts[1] == "project = " + projectKey.value;
    }
    if StatusClause(status) != [] {
      assert parts[|parts| - 2] == StatusClause(status)[0];
    }
  }

  /** The query word for word: the role clause, then " AND project = KEY"
      exactly when a key is given, then " AND " and the status clause
      exactly when the status has one, then a space and the ordering. */
  lemma MyJqlText(projectKey: Option<string>, status: string, role: string)
    ensures MyJql(projectKey, status, role) ==
      RoleClause(role)
      + (if Filled(projectKey) then " AND " + ("project = " + projectKey.value) else "")
      + (if status == "in_progress" then " AND " + InProgress else if status == "open" then " AND " + NotDone else "")
      + " " + Order
  {
    QueryText(RoleClause(role), ProjectClause(projectKey), StatusClause(status), Order);
  }

  /** A query of a first clause, at most one optional clause of each kind and
      an ordering, joined as `Assemble` joins them. */
  lemma QueryText(first: string, p: seq<string>, s: seq<string>, order: string)
    requires |p| <= 1 && |s| <= 1
    ensures Assemble([first] + p + s + [order]) ==
      first + (if p == [] then "" else " AND " + p[0]) + (if s == [] then "" else " AND " + s[0]) + " " + order
  {
    var clauses := [first] + p + s;
    assert ([first] + p + s + [order])[..|clauses|] == clauses;
    var h := first + (if p == [] then "" else " AND " + p[0]);
    if p != [] {
      JoinSnoc([first], p[0], " AND ");
      assert [first] + [p[0]] == [first] + p;
    } else {
      assert [first] + p == [first];
    }
    assert Join([first] + p, " AND ") == h;
    if s != [] {
      JoinSnoc([first] + p, s[0], " AND ");
      assert [first] + p + [s[0]] == clauses;
    } else {
      assert clauses == [first] + p;
    }
  }

  /** An assembled query begins with its first clause. */
  lemma StartsWithFirst(parts: seq<string>)
    requires |parts| >= 2
    ensures StartsWith(Assemble(parts), parts[0])
  {
    var clauses := parts[..|parts| - 1];
    assert clauses[0] == parts[0];
    if |clauses| > 1 {
      assert Join(clauses, " AND ") == clauses[0] + " AND " + Join(clauses[1..], " AND ");
    }
    assert Assemble(parts)[..|parts[0]|] == parts[0];
  }

  function InfoOf(h: Hit): (i: IssueInfo)
    ensures i.commitFormat == h.key + ": "
  {
    IssueInfo(h.key, h.summary, h.status, h.issueType, h.project, h.key + ": ")
  }

  /** The hint quoting the first issue's key. */
  function Hint(key: string): string {
    "Use issue key in commit: git commit -m \"" + key + ": your message\""
  }

  /** `execute`: everything, the checks included, is wrapped on failure;
      there is nothing to check. The listing keeps the issues in search
      order; the project filter is echoed only when given; the hint appears
      exactly when some issue was found and then quotes the first one. */
  method Execute(args: Args, hits: Result<seq<Hit>>) returns (r: Result<Listing>, searched: Search)
    ensures searched == Search(MyJql(args.projectKey, OrElse(args.status, "in_progress"), OrElse(args.role, "assignee")),
      OrElse(args.maxResults, 10), Fields)
    ensures hits.Err? ==> r == Err(Wrapped(Prefix, hits.error))
    ensures hits.Ok? ==>
      r.Ok? && r.value.count == |hits.value| == |r.value.issues|
      && (forall i :: 0 <= i < |hits.value| ==> r.value.issues[i] == InfoOf(hits.value[i]))
      && r.value.projectFilter == (if Filled(args.projectKey) then args.projectKey else None)
      && r.value.statusFilter == OrElse(args.status, "in_progress")
      && r.value.roleFilter == OrElse(args.role, "assignee")
      && (r.value.hint.Some? <==> hits.value != [])
      && (r.value.hint.Some? ==> r.value.hint.value == Hint(hits.value[0].key))
  {
    var status, role := OrElse(args.status, "in_progress"), OrElse(args.role, "assignee");
    searched := Search(MyJql(args.projectKey, status, role), OrElse(args.maxResults, 10), Fields);
    if hits.Err? {
      return Err(Wrapped(Prefix, hits.error)), searched;
    }
    var hs := hits.value;
    var list: seq<IssueInfo> := [];
    for i := 0 to |hs|
      invariant |list| == i && forall j :: 0 <= j < i ==> list[j] == InfoOf(hs[j])
    {
      var h := hs[i];
      list := list + [IssueInfo(h.key, h.summary, h.status, h.issueType, h.project, h.key + ": ")];
    }
    var projectFilter := if Filled(args.projectKey) then args.projectKey else None;
    var hint := if list != [] then Some(Hint(list[0].key)) else None;
    r := Ok(Listing(|list|, list, projectFilter, status, role, hint));
  }
}
