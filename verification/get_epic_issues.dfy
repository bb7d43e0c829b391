/** The get_epic_issues handler: the issues of an epic and how far along
    the epic is. */
module GetEpicIssues {
  import opened Values
  import opened Strings
  import opened Searches

  /** `status` defaults to "all" and `maxResults` to 100. */
  datatype Args = Args(epicKey: Option<string>, status: Option<string>, maxResults: Option<int>)

  datatype IssueInfo = IssueInfo(
    key: string,
    summary: string,
    issueType: string,
    status: string,
    priority: Option<string>,
    assignee: Option<string>,
    storyPoints: Option<int>)

  datatype Progress = Progress(totalIssues: nat, doneIssues: nat, totalPoints: int, donePoints: int)

  datatype Report = Report(epicKey: string, epicSummary: string, filter: string, progress: Progress, issues: seq<IssueInfo>)

  const Prefix := "Failed to get epic issues"
  const Order := "ORDER BY status ASC, priority DESC"
  const Fields := "summary,status,issuetype,priority,assignee,customfield_10001"

  /** The query the handler searches with: the epic link, then the status
      filter ("open": not done, "done": done, anything else: none), then the
      order. */
  function EpicJql(epicKey: string, filter: string): (q: string)
    ensures filter == "open" ==> q == "\"Epic Link\" = " + epicKey + " AND status != Done " + Order
    ensures filter == "done" ==> q == "\"Epic Link\" = " + epicKey + " AND status = Done " + Order
    ensures filter != "open" && filter != "done" ==> q == "\"Epic Link\" = " + epicKey + " " + Order
  {
    var link := "\"Epic Link\" = " + epicKey;
    if filter == "open" then
      AssembleTwo(link, "status != Done", Order);
      Assemble([link, "status != Done", Order])
    else if filter == "done" then
      AssembleTwo(link, "status = Done", Order);
      Assemble([link, "status = Done", Order])
    else
      AssembleOne(link, Order);
      Assemble([link, Order])
  }

  /** Story points count when they are truthy: present and non-zero. */
  function PointsOf(h: Hit): int {
    if h.points.Some? && h.points.value != 0 then h.points.value else 0
  }

  /** A status counts as done when it is "done" or "closed", in any case. */
  predicate IsDone(h: Hit) {
    var s := Lower(h.status);
    s == "done" || s == "closed"
  }

  function InfoOf(h: Hit): (i: IssueInfo)
    ensures i.storyPoints.Some? <==> PointsOf(h) != 0
    ensures i.storyPoints.Some? ==> i.storyPoints.value == PointsOf(h)
  {
    IssueInfo(h.key, h.summary, h.issueType, h.status, h.priority, h.assignee,
      if PointsOf(h) != 0 then h.points else None)
  }

  function Infos(hs: seq<Hit>): (r: seq<IssueInfo>)
    ensures |r| == |hs| && forall i :: 0 <= i < |hs| ==> r[i] == InfoOf(hs[i])
  {
    seq(|hs|, i requires 0 <= i < |hs| => InfoOf(hs[i]))
  }

  /** The tallies over the issues, one issue at a time. */
  function Tally(hs: seq<Hit>): Progress
    decreases |hs|
  {
    if hs == [] then Progress(0, 0, 0, 0)
    else
      var p := Tally(hs[..|hs| - 1]);
      var h := hs[|hs| - 1];
      Progress(p.totalIssues + 1,
        if IsDone(h) then p.doneIssues + 1 else p.doneIssues,
        p.totalPoints + PointsOf(h),
        if IsDone(h) then p.donePoints + PointsOf(h) else p.donePoints)
  }

  /** Every issue is counted, no more done issues than issues, and, with
      non-negative estimates, no more done points than points. When all
      issues are done the done tallies equal the totals; when none is, they
      are zero. */
  lemma {:induction false} TallyBounds(hs: seq<Hit>)
    ensures Tally(hs).totalIssues == |hs|
    ensures Tally(hs).doneIssues <= Tally(hs).totalIssues
    ensures (forall i :: 0 <= i < |hs| ==> PointsOf(hs[i]) >= 0) ==> 0 <= Tally(hs).donePoints <= Tally(hs).totalPoints
    ensures (forall i :: 0 <= i < |hs| ==> IsDone(hs[i])) ==>
      Tally(hs).doneIssues == |hs| && Tally(hs).donePoints == Tally(hs).totalPoints
    ensures (forall i :: 0 <= i < |hs| ==> !IsDone(hs[i])) ==> Tally(hs).doneIssues == 0 && Tally(hs).donePoints == 0
    decreases |hs|
  {
    if hs != [] {
      var pre := hs[..|hs| - 1];
      TallyBounds(pre);
      assert forall i :: 0 <= i < |pre| ==> pre[i] == hs[i];
    }
  }

  /** The loop of `execute`: one entry per issue, and the running tallies. */
  method Summarise(hs: seq<Hit>) returns (list: seq<IssueInfo>, progress: Progress)
    ensures list == Infos(hs) && progress == Tally(hs)
  {
    list := [];
    var doneCount, totalPoints, donePoints := 0, 0, 0;
    for i := 0 to |hs|
      invariant list == Infos(hs[..i])
      invariant Tally(hs[..i]) == Progress(|list|, doneCount, totalPoints, donePoints)
    {
      assert hs[..i + 1][..i] == hs[..i];
      var h := hs[i];
      var info := IssueInfo(h.key, h.summary, h.issueType, h.status, h.priority, h.assignee, None);
      if h.points.Some? && h.points.value != 0 {
        info := info.(storyPoints := h.points);
        totalPoints := totalPoints + h.points.value;
      }
      var s := Lower(h.status);
      if s == "done" || s == "closed" {
        doneCount := doneCount + 1;
        if h.points.Some? && h.points.value != 0 {
          donePoints := donePoints + h.points.value;
        }
      }
      list := list + [info];
    }
    assert hs[..|hs|] == hs;
    progress := Progress(|list|, doneCount, totalPoints, donePoints);
  }

  /** `execute`: the epic key is required; the epic is read first for its
      summary, then its issues are searched and tallied; any failure after
      the check is wrapped. */
  method Execute(args: Args, epic: Result<string>, hits: Result<seq<Hit>>)
    returns (r: Result<Report>, searched: Option<Search>)
    ensures !Filled(args.epicKey) ==> r == Err(ValueError("epicKey is required")) && searched == None
    ensures Filled(args.epicKey) && epic.Err? ==> r == Err(Wrapped(Prefix, epic.error)) && searched == None
    ensures Filled(args.epicKey) && epic.Ok? ==>
      searched == Some(Search(EpicJql(args.epicKey.value, OrElse(args.status, "all")), OrElse(args.maxResults, 100), Fields))
    ensures Filled(args.epicKey) && epic.Ok? && hits.Err? ==> r == Err(Wrapped(Prefix, hits.error))
    ensures Filled(args.epicKey) && epic.Ok? && hits.Ok? ==>
      r == Ok(Report(args.epicKey.value, epic.value, OrElse(args.status, "all"), Tally(hits.value), Infos(hits.value)))
  {
    searched := None;
    if !Filled(args.epicKey) {
      return Err(ValueError("epicKey is required")), None;
    }
    var key, filter, limit := args.epicKey.value, OrElse(args.status, "all"), OrElse(args.maxResults, 100);
    if epic.Err? {
      return Err(Wrapped(Prefix, epic.error)), None;
    }
    searched := Some(Search(EpicJql(key, filter), limit, Fields));
    if hits.Err? {
      return Err(Wrapped(Prefix, hits.error)), searched;
    }
    var list, progress := Summarise(hits.value);
    r := Ok(Report(key, epic.value, filter, progress, list));
  }
}
