/** The transition_issue handler: pick a workflow transition by id, exact
    name or partial name, and move the issue through it. */
module TransitionIssue {
  import opened Values
  import opened Strings
  import FieldCaches
  import opened FieldMappers
  import opened Records

  /** The arguments; a missing key is `None`, a missing `fields` is `[]`. */
  datatype Args = Args(
    issueKey: Option<string>,
    transition: Option<string>,
    comment: Option<string>,
    fields: Dict<Value>)

  /** What the Jira client answers: the transitions it offers, the issue's
      current status as `str` shows it, and the outcome of the transition
      call (`None` when it succeeds). */
  datatype Jira = Jira(
    transitions: Result<seq<Transition>>,
    status: Result<string>,
    failure: Option<Exception>)

  /** The `jira.transition_issue(...)` call and its keyword arguments. */
  datatype Request = Request(
    issueKey: string,
    transitionId: string,
    comment: Option<string>,
    fields: Option<Dict<Value>>)

  /** The JSON object the handler returns. */
  datatype Report = Report(
    message: string,
    issueKey: string,
    from: string,
    to: string,
    transition: string,
    comment: Option<string>)

  const Prefix := "Failed to transition issue"

  predicate IdIs(t: Transition, x: string) { t.id == x }
  predicate NameIs(t: Transition, x: string) { Lower(t.name) == Lower(x) }
  predicate NameHas(t: Transition, x: string) { Contains(Lower(t.name), Lower(x)) }

  /** `_find_transition`: the first transition with this id, else the first
      whose name equals the input up to case, else the first whose name
      contains it up to case. */
  function Pick(ts: seq<Transition>, x: string): (r: Option<Transition>)
    ensures r.Some? ==> r.value in ts
  {
    var i := FirstWhere(ts, t => IdIs(t, x));
    if i < |ts| then Some(ts[i])
    else
      var j := FirstWhere(ts, t => NameIs(t, x));
      if j < |ts| then Some(ts[j])
      else
        var k := FirstWhere(ts, t => NameHas(t, x));
        if k < |ts| then Some(ts[k]) else None
  }

  /** The three tiers of the search, and its failure. The first transition
      with the id wins; without one, the first whose name equals the input
      up to case; without that, the first whose name contains it. Nothing is
      found exactly when no transition has the id and no name contains the
      input, since an equal name also contains it. */
  lemma PickTiers(ts: seq<Transition>, x: string)
    ensures forall i :: 0 <= i < |ts| && ts[i].id == x && (forall j :: 0 <= j < i ==> ts[j].id != x) ==>
      Pick(ts, x) == Some(ts[i])
    ensures (forall i :: 0 <= i < |ts| ==> ts[i].id != x) ==>
      forall i :: 0 <= i < |ts| && NameIs(ts[i], x) && (forall j :: 0 <= j < i ==> !NameIs(ts[j], x)) ==>
        Pick(ts, x) == Some(ts[i])
    ensures (forall i :: 0 <= i < |ts| ==> ts[i].id != x && !NameIs(ts[i], x)) ==>
      forall i :: 0 <= i < |ts| && NameHas(ts[i], x) && (forall j :: 0 <= j < i ==> !NameHas(ts[j], x)) ==>
        Pick(ts, x) == Some(ts[i])
    ensures Pick(ts, x).None? <==> forall i :: 0 <= i < |ts| ==> ts[i].id != x && !NameHas(ts[i], x)
  {
    forall i | 0 <= i < |ts| && ts[i].id == x && (forall j :: 0 <= j < i ==> ts[j].id != x)
      ensures Pick(ts, x) == Some(ts[i])
    {
      FirstWhereIs(ts, t => IdIs(t, x), i);
    }
    if forall i :: 0 <= i < |ts| ==> ts[i].id != x {
      FirstWhereIs(ts, t => IdIs(t, x), |ts|);
      forall i | 0 <= i < |ts| && NameIs(ts[i], x) && (forall j :: 0 <= j < i ==> !NameIs(ts[j], x))
        ensures Pick(ts, x) == Some(ts[i])
      {
        FirstWhereIs(ts, t => NameIs(t, x), i);
      }
      if forall i :: 0 <= i < |ts| ==> !NameIs(ts[i], x) {
        FirstWhereIs(ts, t => NameIs(t, x), |ts|);
        forall i | 0 <= i < |ts| && NameHas(ts[i], x) && (forall j :: 0 <= j < i ==> !NameHas(ts[j], x))
          ensures Pick(ts, x) == Some(ts[i])
        {
          FirstWhereIs(ts, t => NameHas(t, x), i);
        }
      }
    }
    if Pick(ts, x).None? {
      forall i | 0 <= i < |ts| ensures ts[i].id != x && !NameHas(ts[i], x) {
        assert !IdIs(ts[i], x);
        assert !NameHas(ts[i], x);
      }
    }
    forall i | 0 <= i < |ts| && NameIs(ts[i], x) ensures NameHas(ts[i], x) {
      ContainsSelf(Lower(x));
    }
  }

  /** `_find_transition`, loop by loop. */
  method FindTransition(ts: seq<Transition>, x: string) returns (r: Option<Transition>)
    ensures r == Pick(ts, x)
  {
    for i := 0 to |ts|
      invariant forall j :: 0 <= j < i ==> !IdIs(ts[j], x)
    {
      if ts[i].id == x {
        FirstWhereIs(ts, t => IdIs(t, x), i);
        return Some(ts[i]);
      }
    }
    FirstWhereIs(ts, t => IdIs(t, x), |ts|);
    var lowered := Lower(x);
    for i := 0 to |ts|
      invariant forall j :: 0 <= j < i ==> !NameIs(ts[j], x)
    {
      if Lower(ts[i].name) == lowered {
        FirstWhereIs(ts, t => NameIs(t, x), i);
        return Some(ts[i]);
      }
    }
    FirstWhereIs(ts, t => NameIs(t, x), |ts|);
    for i := 0 to |ts|
      invariant forall j :: 0 <= j < i ==> !NameHas(ts[j], x)
    {
      if Contains(Lower(ts[i].name), lowered) {
        FirstWhereIs(ts, t => NameHas(t, x), i);
        return Some(ts[i]);
      }
    }
    FirstWhereIs(ts, t => NameHas(t, x), |ts|);
    r := None;
  }

  /** The error raised when no transition matches. */
  function NotAvailable(x: string, ts: seq<Transition>): string {
    "Transition '" + x + "' not available. Available transitions: " + Join(TransitionNames(ts), ", ")
  }

  /** `execute`: validate, find the transition, read the current status,
      translate any field names through the mapper and perform the
      transition. ValueErrors pass through; every other failure is wrapped.
      The mapper is consulted only when fields are given. */
  method Execute(mapper: FieldMapper, args: Args, jira: Jira) returns (r: Result<Report>, sent: Option<Request>)
    requires mapper.Valid()
    modifies mapper, mapper.jira`calls
    ensures mapper.Valid()
    ensures args.fields == [] || sent.None? ==> unchanged(mapper, mapper.jira)
    ensures args.fields != [] && sent.Some? ==> mapper.Loaded()
    ensures !Filled(args.issueKey) ==> r == Err(ValueError("issueKey is required")) && sent == None
    ensures Filled(args.issueKey) && !Filled(args.transition) ==>
      r == Err(ValueError("transition is required")) && sent == None
    ensures Filled(args.issueKey) && Filled(args.transition) && jira.transitions.Err? ==>
      r == Err(Reraised(Prefix, jira.transitions.error)) && sent == None
    ensures (Filled(args.issueKey) && Filled(args.transition) && jira.transitions.Ok? &&
             Pick(jira.transitions.value, args.transition.value).None?) ==>
      r == Err(ValueError(NotAvailable(args.transition.value, jira.transitions.value))) && sent == None
    ensures (Filled(args.issueKey) && Filled(args.transition) && jira.transitions.Ok? &&
             Pick(jira.transitions.value, args.transition.value).Some? && jira.status.Err?) ==>
      r == Err(Reraised(Prefix, jira.status.error)) && sent == None
    ensures sent.Some? <==>
      Filled(args.issueKey) && Filled(args.transition) && jira.transitions.Ok? &&
      Pick(jira.transitions.value, args.transition.value).Some? && jira.status.Ok?
    ensures sent.Some? ==>
      var t := Pick(jira.transitions.value, args.transition.value).value;
      && sent.value.issueKey == args.issueKey.value
      && sent.value.transitionId == t.id
      && (sent.value.comment.Some? <==> Filled(args.comment))
      && (sent.value.comment.Some? ==> sent.value.comment == args.comment)
      && (sent.value.fields.Some? <==> args.fields != [])
      && (sent.value.fields.Some? ==> sent.value.fields.value == FieldCaches.TranslateFields(mapper.Cached(), args.fields))
      && (jira.failure.Some? ==> r == Err(Reraised(Prefix, jira.failure.value)))
      && (jira.failure.None? ==> r == Ok(Report(
            "Issue " + args.issueKey.value + " transitioned successfully",
            args.issueKey.value, jira.status.value, TargetName(t), t.name,
            if Filled(args.comment) then Some("Added") else None)))
  {
    sent := None;
    if !Filled(args.issueKey) {
      return Err(ValueError("issueKey is required")), None;
    }
    if !Filled(args.transition) {
      return Err(ValueError("transition is required")), None;
    }
    var key, x := args.issueKey.value, args.transition.value;
    if jira.transitions.Err? {
      return Err(Reraised(Prefix, jira.transitions.error)), None;
    }
    var t := FindTransition(jira.transitions.value, x);
    if t.None? {
      return Err(ValueError(NotAvailable(x, jira.transitions.value))), None;
    }
    if jira.status.Err? {
      return Err(Reraised(Prefix, jira.status.error)), None;
    }
    var comment := if Filled(args.comment) then args.comment else None;
    var fields := None;
    if args.fields != [] {
      var translated := mapper.TranslateFields(args.fields);
      fields := Some(translated);
    }
    sent := Some(Request(key, t.value.id, comment, fields));
    if jira.failure.Some? {
      return Err(Reraised(Prefix, jira.failure.value)), sent;
    }
    r := Ok(Report(
      "Issue " + key + " transitioned successfully",
      key, jira.status.value, TargetName(t.value), t.value.name,
      if Filled(args.comment) then Some("Added") else None));
  }
}
