/** What the search handlers share: the issues `search_issues` returns and
    the way each handler assembles its JQL from clauses and an ORDER BY. */
module Searches {
  import opened Values
  import opened Strings

  /** An issue of a search result, with the fields the handlers read.
      `priority` and `assignee` are their display strings when the issue has
      a non-empty value and `None` otherwise; `points` is story-point field
      customfield_10001, `None` when absent or null. */
  datatype Hit = Hit(
    key: string,
    summary: string,
    status: string,
    issueType: string,
    project: string,
    priority: Option<string>,
    assignee: Option<string>,
    points: Option<int>)

  /** One `search_issues` call: the query, the result limit and the fields
      asked for. */
  datatype Search = Search(jql: string, maxResults: int, fields: string)

  /** `" AND ".join(parts[:-1]) + " " + parts[-1]`: the clauses joined by
      AND, then the ORDER BY part after a space. */
  function Assemble(parts: seq<string>): (q: string)
    requires parts != []
  {
    Join(parts[..|parts| - 1], " AND ") + " " + parts[|parts| - 1]
  }

  /** Every part occurs in a join of the parts. */
  lemma {:induction false} JoinHasParts(parts: seq<string>, sep: string, i: nat)
    requires i < |parts|
    ensures exists k :: OccursAt(Join(parts, sep), parts[i], k)
    decreases |parts|
  {
    if |parts| == 1 {
      assert OccursAt(Join(parts, sep), parts[0], 0);
    } else {
      var rest := Join(parts[1..], sep);
      var j := Join(parts, sep);
      assert j == parts[0] + sep + rest;
      if i == 0 {
        assert j[..|parts[0]|] == parts[0];
        assert OccursAt(j, parts[0], 0);
      } else {
        JoinHasParts(parts[1..], sep, i - 1);
        var k :| OccursAt(rest, parts[1..][i - 1], k);
        var off := |parts[0]| + |sep|;
        assert j[off..] == rest;
        assert j[off + k..off + k + |parts[i]|] == rest[k..k + |parts[i]|];
        assert OccursAt(j, parts[i], off + k);
      }
    }
  }

  /** The assembled query keeps every clause and ends with the ORDER BY part. */
  lemma AssembleKeepsParts(parts: seq<string>)
    requires parts != []
    ensures forall i :: 0 <= i < |parts| ==> Contains(Assemble(parts), parts[i])
    ensures OccursAt(Assemble(parts), parts[|parts| - 1], |Assemble(parts)| - |parts[|parts| - 1]|)
  {
    var q := Assemble(parts);
    var head := Join(parts[..|parts| - 1], " AND ");
    var last := parts[|parts| - 1];
    assert q == head + " " + last;
    assert q[|q| - |last|..] == last;
    forall i | 0 <= i < |parts| ensures Contains(q, parts[i]) {
      ContainsAt(q, parts[i]);
      if i == |parts| - 1 {
        assert OccursAt(q, last, |q| - |last|);
      } else {
        JoinHasParts(parts[..|parts| - 1], " AND ", i);
        var k :| OccursAt(head, parts[..|parts| - 1][i], k);
        assert q[k..k + |parts[i]|] == head[k..k + |parts[i]|];
        assert OccursAt(q, parts[i], k);
      }
    }
  }

  lemma AssembleOne(a: string, order: string)
    ensures Assemble([a, order]) == a + " " + order
  {
    assert [a, order][..1] == [a];
  }

  lemma AssembleTwo(a: string, b: string, order: string)
    ensures Assemble([a, b, order]) == a + " AND " + b + " " + order
  {
    assert [a, b, order][..2] == [a, b];
    assert [a, b][1..] == [b];
    assert Join([b], " AND ") == b;
    assert Join([a, b], " AND ") == a + " AND " + b;
  }

  lemma AssembleThree(a: string, b: string, c: string, order: string)
    ensures Assemble([a, b, c, order]) == a + " AND " + b + " AND " + c + " " + order
  {
    assert [a, b, c, order][..3] == [a, b, c];
    assert [a, b, c][1..] == [b, c];
    assert [b, c][1..] == [c];
    assert Join([c], " AND ") == c;
    assert Join([b, c], " AND ") == b + " AND " + c;
    assert Join([a, b, c], " AND ") == a + " AND " + (b + " AND " + c);
  }
}
