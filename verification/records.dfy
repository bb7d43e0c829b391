/** The Jira records the handlers read: workflow transitions and the
    create-screen metadata. A key that Jira leaves out is `None`; an absent
    or empty `fields` dictionary is the empty dictionary. */
module Records {
  import opened Values
  import opened Strings

  /** The status a transition leads to (`to`). */
  datatype Target = Target(name: Option<string>)

  /** A field a transition screen asks for. */
  datatype TransitionField = TransitionField(name: Option<string>, required: Option<bool>)

  /** One entry of `jira.transitions(key)`. */
  datatype Transition = Transition(
    id: string,
    name: string,
    to: Option<Target>,
    fields: Dict<TransitionField>)

  /** `t.get("to", {}).get("name", "Unknown")`. */
  function TargetName(t: Transition): (r: string)
    ensures t.to.Some? && t.to.value.name.Some? ==> r == t.to.value.name.value
    ensures t.to.None? || t.to.value.name.None? ==> r == "Unknown"
  {
    match t.to
    case None => "Unknown"
    case Some(target) => OrElse(target.name, "Unknown")
  }

  /** The names of the transitions, in the order Jira lists them. */
  function TransitionNames(ts: seq<Transition>): (r: seq<string>)
    ensures |r| == |ts| && forall i :: 0 <= i < |ts| ==> r[i] == ts[i].name
  {
    seq(|ts|, i requires 0 <= i < |ts| => ts[i].name)
  }

  /** A field of the create screen of one issue type. */
  datatype FieldMeta = FieldMeta(
    name: Option<string>,
    required: Option<bool>,
    schema: Dict<Value>,
    allowedValues: seq<Value>)

  /** An issue type of a project, with the fields its create screen has. */
  datatype IssueTypeMeta = IssueTypeMeta(
    name: Option<string>,
    description: Option<string>,
    fields: Dict<FieldMeta>)

  datatype ProjectMeta = ProjectMeta(name: Option<string>, issueTypes: seq<IssueTypeMeta>)

  /** `jira.createmeta(...)`: the projects it lists. */
  datatype CreateMeta = CreateMeta(projects: seq<ProjectMeta>)

  /** `it.get("name", "").lower() == lowered`. */
  predicate NamedLike(it: IssueTypeMeta, lowered: string) {
    Lower(OrElse(it.name, "")) == lowered
  }

  /** The fields every issue type has and the handlers skip. */
  predicate IsSystemField(id: string) {
    id == "project" || id == "issuetype"
  }

  /** `v.get("name", v.get("value", str(v)))` for a dict `v`. */
  function AllowedName(v: Value): (r: Value)
    requires v.Mapping?
    ensures Get(v.entries, "name").Some? ==> r == Get(v.entries, "name").value
    ensures Get(v.entries, "name").None? && Get(v.entries, "value").Some? ==> r == Get(v.entries, "value").value
    ensures Get(v.entries, "name").None? && Get(v.entries, "value").None? ==> r == Text(Show(v))
  {
    OrElse(Get(v.entries, "name"), OrElse(Get(v.entries, "value"), Text(Show(v))))
  }

  /** `[AllowedName(v) for v in vs if isinstance(v, dict)]`. */
  function AllowedNames(vs: seq<Value>): (r: seq<Value>)
    ensures |r| <= |vs|
    ensures (forall i :: 0 <= i < |vs| ==> vs[i].Mapping?) ==> |r| == |vs|
    ensures (forall i :: 0 <= i < |vs| ==> !vs[i].Mapping?) ==> r == []
    ensures forall i :: 0 <= i < |r| ==> exists j :: 0 <= j < |vs| && vs[j].Mapping? && r[i] == AllowedName(vs[j])
  {
    if vs == [] then []
    else
      var rest := AllowedNames(vs[1..]);
      assert forall j :: 0 <= j < |vs[1..]| ==> vs[1..][j] == vs[j + 1];
      if vs[0].Mapping? then [AllowedName(vs[0])] + rest else rest
  }

  /** The names keep the order of the values: those of `a + b` are those of
      `a` followed by those of `b`. */
  lemma {:induction false} AllowedNamesAppend(a: seq<Value>, b: seq<Value>)
    ensures AllowedNames(a + b) == AllowedNames(a) + AllowedNames(b)
    decreases |a|
  {
    if a == [] {
      assert a + b == b;
    } else {
      assert (a + b)[0] == a[0];
      assert (a + b)[1..] == a[1..] + b;
      AllowedNamesAppend(a[1..], b);
    }
  }

  /** The name of each dict value, in place: appending a value appends its
      name when it is a dict and nothing otherwise. */
  lemma AllowedNamesSnoc(vs: seq<Value>, v: Value)
    ensures AllowedNames(vs + [v]) == AllowedNames(vs) + (if v.Mapping? then [AllowedName(v)] else [])
  {
    AllowedNamesAppend(vs, [v]);
    assert [v][1..] == [];
  }

  /** The names of the issue types as `[it.get("name") for it in ...]`. */
  function TypeNames(its: seq<IssueTypeMeta>): (r: seq<Option<string>>)
    ensures |r| == |its| && forall i :: 0 <= i < |its| ==> r[i] == its[i].name
  {
    seq(|its|, i requires 0 <= i < |its| => its[i].name)
  }
}
