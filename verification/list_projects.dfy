/** The list_projects handler: the projects the user can see, optionally
    filtered by a query on key or name. */
module ListProjects {
  import opened Values
  import opened Strings

  /** A project as `jira.projects()` returns it: `lead` is its display
      string when it has a non-empty lead, `projectType` its type key when
      the attribute exists. */
  datatype Project = Project(key: string, name: string, lead: Option<string>, projectType: Option<string>)

  /** One listed project: the optional keys are left out when `None`. */
  datatype ProjectInfo = ProjectInfo(key: string, name: string, lead: Option<string>, kind: Option<string>)

  datatype Listing = Listing(count: nat, projects: seq<ProjectInfo>, filter: Option<string>)

  /** `query` defaults to "" and `maxResults` to 50. */
  datatype Args = Args(query: Option<string>, maxResults: Option<int>)

  const Prefix := "Failed to list projects"

  /** The query occurs in the key or in the name, ignoring case. */
  predicate Matches(p: Project, query: string) {
    Contains(Lower(p.key), Lower(query)) || Contains(Lower(p.name), Lower(query))
  }

  /** The projects kept before the slice: all of them for an empty query. */
  function Matching(ps: seq<Project>, query: string): (r: seq<Project>)
    ensures query == "" ==> r == ps
    ensures |r| <= |ps|
    ensures forall x | x in r :: x in ps && Matches(x, query)
    ensures forall j :: 0 <= j < |ps| && Matches(ps[j], query) ==> ps[j] in r
  {
    if query != "" then Filter(ps, (p: Project) => Matches(p, query)) else ps
  }

  function InfoOf(p: Project): ProjectInfo {
    ProjectInfo(p.key, p.name, p.lead, p.projectType)
  }

  /** `execute`: any failure is wrapped. The listing is the matching
      projects in Jira's order, cut to `maxResults` with Python's slice
      rules; the filter is echoed exactly when the query is non-empty. */
  method Execute(args: Args, projects: Result<seq<Project>>) returns (r: Result<Listing>)
    ensures projects.Err? ==> r == Err(Wrapped(Prefix, projects.error))
    ensures projects.Ok? ==>
      var kept := Take(Matching(projects.value, OrElse(args.query, "")), OrElse(args.maxResults, 50));
      && r.Ok? && r.value.count == |kept| == |r.value.projects|
      && (forall i :: 0 <= i < |kept| ==> r.value.projects[i] == InfoOf(kept[i]))
      && (r.value.filter.Some? <==> OrElse(args.query, "") != "")
      && (r.value.filter.Some? ==> r.value.filter == args.query)
  {
    var query, limit := OrElse(args.query, ""), OrElse(args.maxResults, 50);
    if projects.Err? {
      return Err(Wrapped(Prefix, projects.error));
    }
    var ps := projects.value;
    if query != "" {
      ps := Filter(ps, (p: Project) => Matches(p, query));
    }
    ps := Take(ps, limit);
    var list: seq<ProjectInfo> := [];
    for i := 0 to |ps|
      invariant |list| == i && forall j :: 0 <= j < i ==> list[j] == InfoOf(ps[j])
    {
      var p := ps[i];
      list := list + [ProjectInfo(p.key, p.name, p.lead, p.projectType)];
    }
    r := Ok(Listing(|list|, list, if query != "" then Some(query) else None));
  }

  /** Every listed project matches the query and is one of Jira's; at most
      `maxResults` are listed for a non-negative limit; and when the limit
      is not reached every matching project is listed. */
  lemma ListingSelects(ps: seq<Project>, query: string, limit: int)
    ensures var kept := Take(Matching(ps, query), limit);
      && (forall x | x in kept :: x in ps && Matches(x, query))
      && (limit >= 0 ==> |kept| <= limit)
      && (limit >= |Matching(ps, query)| ==> forall j :: 0 <= j < |ps| && Matches(ps[j], query) ==> ps[j] in kept)
  {
    var m := Matching(ps, query);
    var kept := Take(m, limit);
    forall x | x in kept ensures x in ps && Matches(x, query) {
      var i :| 0 <= i < |kept| && kept[i] == x;
      assert m[i] == x;
    }
    if limit >= |m| {
      assert kept == m;
    }
  }
}
