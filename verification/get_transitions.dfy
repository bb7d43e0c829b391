/** The get_transitions handler: the transitions an issue can take now, with
    the fields each one requires. */
module GetTransitions {
  import opened Values
  import opened Records

  /** A required field of a transition: its id and name (else its id). */
  datatype FieldRef = FieldRef(id: string, name: string)

  /** One listed transition; `requiredFields` is present only when some
      field is required. */
  datatype Entry = Entry(id: string, name: string, to: string, requiredFields: Option<seq<FieldRef>>)

  datatype Listing = Listing(issueKey: string, currentStatus: string, availableTransitions: seq<Entry>)

  const Prefix := "Failed to get transitions"

  /** A field whose `required` flag is set. */
  predicate IsRequired(p: (string, TransitionField)) {
    p.1.required == Some(true)
  }

  function RefOf(p: (string, TransitionField)): FieldRef {
    FieldRef(p.0, OrElse(p.1.name, p.0))
  }

  /** The required fields of a transition screen, in screen order. */
  function RequiredOf(fields: Dict<TransitionField>): (r: seq<FieldRef>)
    decreases |fields|
  {
    if fields == [] then []
    else
      var rest := RequiredOf(fields[..|fields| - 1]);
      if IsRequired(fields[|fields| - 1]) then rest + [RefOf(fields[|fields| - 1])] else rest
  }

  /** Exactly the required fields are listed: every listed one is a required
      field of the screen and every required field is listed. */
  lemma {:induction false} RequiredOfExactly(fields: Dict<TransitionField>)
    ensures |RequiredOf(fields)| <= |fields|
    ensures forall f | f in RequiredOf(fields) :: exists i :: 0 <= i < |fields| && IsRequired(fields[i]) && f == RefOf(fields[i])
    ensures forall i :: 0 <= i < |fields| && IsRequired(fields[i]) ==> RefOf(fields[i]) in RequiredOf(fields)
    ensures RequiredOf(fields) == [] <==> forall i :: 0 <= i < |fields| ==> !IsRequired(fields[i])
    decreases |fields|
  {
    if fields != [] {
      var pre := fields[..|fields| - 1];
      RequiredOfExactly(pre);
      assert forall i :: 0 <= i < |pre| ==> pre[i] == fields[i];
    }
  }

  /** How one transition is listed. */
  function EntryOf(t: Transition): Entry {
    var req := RequiredOf(t.fields);
    Entry(t.id, t.name, TargetName(t), if req == [] then None else Some(req))
  }

  function Entries(ts: seq<Transition>): (r: seq<Entry>)
    ensures |r| == |ts| && forall i :: 0 <= i < |ts| ==> r[i] == EntryOf(ts[i])
  {
    seq(|ts|, i requires 0 <= i < |ts| => EntryOf(ts[i]))
  }

  /** The required fields of one transition, by a loop over its screen. */
  method CollectRequired(fields: Dict<TransitionField>) returns (r: seq<FieldRef>)
    ensures r == RequiredOf(fields)
  {
    r := [];
    for j := 0 to |fields|
      invariant r == RequiredOf(fields[..j])
    {
      assert fields[..j + 1][..j] == fields[..j];
      var id, info := fields[j].0, fields[j].1;
      if info.required == Some(true) {
        r := r + [FieldRef(id, OrElse(info.name, id))];
      }
    }
    assert fields[..|fields|] == fields;
  }

  /** `execute`: the issue key is required; the issue is read first for its
      status, then its transitions; any failure is wrapped. Each transition
      keeps its id and name, its target's name (else "Unknown"), and its
      required fields when there are some. */
  method Execute(issueKey: Option<string>, status: Result<string>, transitions: Result<seq<Transition>>)
    returns (r: Result<Listing>)
    ensures !Filled(issueKey) ==> r == Err(ValueError("issueKey is required"))
    ensures Filled(issueKey) && status.Err? ==> r == Err(Wrapped(Prefix, status.error))
    ensures Filled(issueKey) && status.Ok? && transitions.Err? ==> r == Err(Wrapped(Prefix, transitions.error))
    ensures Filled(issueKey) && status.Ok? && transitions.Ok? ==>
      r == Ok(Listing(issueKey.value, status.value, Entries(transitions.value)))
  {
    if !Filled(issueKey) {
      return Err(ValueError("issueKey is required"));
    }
    if status.Err? {
      return Err(Wrapped(Prefix, status.error));
    }
    if transitions.Err? {
      return Err(Wrapped(Prefix, transitions.error));
    }
    var ts := transitions.value;
    var list: seq<Entry> := [];
    for i := 0 to |ts|
      invariant list == Entries(ts[..i])
    {
      var t := ts[i];
      var req := CollectRequired(t.fields);
      var entry := Entry(t.id, t.name, TargetName(t), if req == [] then None else Some(req));
      list := list + [entry];
    }
    assert ts[..|ts|] == ts;
    r := Ok(Listing(issueKey.value, status.value, list));
  }
}
