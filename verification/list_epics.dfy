/** The list_epics handler: the epics of a project, filtered by status. */
module ListEpics {
  import opened Values
  import opened Searches

  /** `status` defaults to "open" and `maxResults` to 50. */
  datatype Args = Args(projectKey: Option<string>, status: Option<string>, maxResults: Option<int>)

  datatype EpicInfo = EpicInfo(key: string, summary: string, status: string, priority: Option<string>, assignee: Option<string>)

  datatype Listing = Listing(projectKey: string, filter: string, count: nat, epics: seq<EpicInfo>)

  const Prefix := "Failed to list epics"
  const Order := "ORDER BY created DESC"
  const Fields := "summary,status,priority,assignee"

  const EpicsOnly := "issuetype = Epic"
  const NotDone := "status != Done"
  const Done := "status = Done"

  /** The status clause, if any: "open" and "done" have one. */
  function StatusClause(filter: string): seq<string> {
    if filter == "open" then [NotDone] else if filter == "done" then [Done] else []
  }

  /** The query: the project, epics only, the status filter, newest first. */
  function EpicsJql(projectKey: string, filter: string): string {
    Assemble(["project = " + projectKey, EpicsOnly] + StatusClause(filter) + [Order])
  }

  /** The query for each filter, written out: "open" excludes done epics,
      "done" keeps only those, and any other filter, "all" included, adds
      no status clause. */
  lemma EpicsJqlText(projectKey: string, filter: string)
    ensures filter == "open" ==> EpicsJql(projectKey, filter) == "project = " + projectKey + " AND " + EpicsOnly + " AND " + NotDone + " " + Order
    ensures filter == "done" ==> EpicsJql(projectKey, filter) == "project = " + projectKey + " AND " + EpicsOnly + " AND " + Done + " " + Order
    ensures filter != "open" && filter != "done" ==> EpicsJql(projectKey, filter) == "project = " + projectKey + " AND " + EpicsOnly + " " + Order
  {
    var project := "project = " + projectKey;
    var parts := [project, EpicsOnly] + StatusClause(filter) + [Order];
    if filter == "open" {
      assert parts == [project, EpicsOnly, NotDone, Order];
      AssembleThree(project, EpicsOnly, NotDone, Order);
    } else if filter == "done" {
      assert parts == [project, EpicsOnly, Done, Order];
      AssembleThree(project, EpicsOnly, Done, Order);
    } else {
      assert parts == [project, EpicsOnly, Order];
      AssembleTwo(project, EpicsOnly, Order);
    }
  }

  function InfoOf(h: Hit): EpicInfo {
    EpicInfo(h.key, h.summary, h.status, h.priority, h.assignee)
  }

  /** `execute`: the project key is required; any failure of the search is
      wrapped. The listing keeps the epics in search order, one entry each,
      and its count is their number. */
  method Execute(args: Args, hits: Result<seq<Hit>>) returns (r: Result<Listing>, searched: Option<Search>)
    ensures !Filled(args.projectKey) ==> r == Err(ValueError("projectKey is required")) && searched == None
    ensures Filled(args.projectKey) ==>
      searched == Some(Search(EpicsJql(args.projectKey.value, OrElse(args.status, "open")), OrElse(args.maxResults, 50), Fields))
    ensures Filled(args.projectKey) && hits.Err? ==> r == Err(Wrapped(Prefix, hits.error))
    ensures Filled(args.projectKey) && hits.Ok? ==>
      r.Ok? && r.value.projectKey == args.projectKey.value && r.value.filter == OrElse(args.status, "open")
      && r.value.count == |hits.value| == |r.value.epics|
      && forall i :: 0 <= i < |hits.value| ==> r.value.epics[i] == InfoOf(hits.value[i])
  {
    if !Filled(args.projectKey) {
      return Err(ValueError("projectKey is required")), None;
    }
    var key, filter := args.projectKey.value, OrElse(args.status, "open");
    searched := Some(Search(EpicsJql(key, filter), OrElse(args.maxResults, 50), Fields));
    if hits.Err? {
      return Err(Wrapped(Prefix, hits.error)), searched;
    }
    var hs := hits.value;
    var list: seq<EpicInfo> := [];
    for i := 0 to |hs|
      invariant |list| == i && forall j :: 0 <= j < i ==> list[j] == InfoOf(hs[j])
    {
      var h := hs[i];
      list := list + [EpicInfo(h.key, h.summary, h.status, h.priority, h.assignee)];
    }
    r := Ok(Listing(key, filter, |list|, list));
  }
}
