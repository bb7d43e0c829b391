/** The format_commit handler: a commit message that names a Jira issue, and
    the git command that makes the commit. */
module FormatCommit {
  import opened Values
  import opened Strings

  datatype Args = Args(
    issueKey: Option<string>,
    message: Option<string>,
    commitType: Option<string>,
    includeDescription: Option<Value>,
    validate: Option<Value>)

  /** What the issue lookup yields: the summary and `str` of the issue type. */
  datatype IssueInfo = IssueInfo(summary: string, issueType: string)

  datatype Commit = Commit(
    issueKey: string,
    commitMessage: string,
    subject: string,
    issueSummary: Option<string>,
    gitCommand: string)

  predicate IsUpperAlpha(c: char) { 'A' <= c <= 'Z' }
  predicate IsUpperAlnum(c: char) { 'A' <= c <= 'Z' || '0' <= c <= '9' }
  predicate IsDigit(c: char) { '0' <= c <= '9' }

  /** `s` is a letter, then one or more letters or digits up to index `p`,
      where a dash stands, then one or more digits to the end. */
  predicate KeyAt(s: string, p: int) {
    && 2 <= p && p + 1 < |s|
    && IsUpperAlpha(s[0])
    && (forall i :: 1 <= i < p ==> IsUpperAlnum(s[i]))
    && s[p] == '-'
    && (forall i :: p < i < |s| ==> IsDigit(s[i]))
  }

  /** An issue key: the whole string has the shape `PROJ-123`. */
  predicate ValidIssueKey(s: string) {
    exists p | 0 <= p < |s| :: KeyAt(s, p)
  }

  /** What `re.match(r"^[A-Z][A-Z0-9]+-\d+$", s)` accepts: `$` also matches
      just before a final newline, so a key followed by one newline passes. */
  predicate KeyPatternAsWritten(s: string) {
    ValidIssueKey(s) || (|s| > 0 && s[|s| - 1] == '\n' && ValidIssueKey(s[..|s| - 1]))
  }

  /** The pattern as written lets a key with a trailing newline through. */
  lemma AsWrittenAcceptsNewline()
    ensures KeyPatternAsWritten("PROJ-1\n")
    ensures !ValidIssueKey("PROJ-1\n")
  {
    var s := "PROJ-1\n";
    assert s[..|s| - 1] == "PROJ-1";
    assert KeyAt("PROJ-1", 4);
    assert s[6] == '\n';
  }

  /** A valid key is made of capital letters, digits and one dash, so it
      holds no whitespace; in particular no newline can reach the subject. */
  lemma ValidKeyShape(s: string)
    requires ValidIssueKey(s)
    ensures forall i :: 0 <= i < |s| ==> IsUpperAlnum(s[i]) || s[i] == '-'
    ensures forall i :: 0 <= i < |s| ==> !IsSpace(s[i])
    ensures Upper(s) == s
  {
  }

  /** `_validate_issue_key` on an upper-cased key, as a scan: letters and
      digits up to the first dash, then digits to the end. */
  method MatchesKey(s: string) returns (b: bool)
    ensures b <==> ValidIssueKey(s)
  {
    if |s| == 0 || !IsUpperAlpha(s[0]) {
      return false;
    }
    var p := 1;
    while p < |s| && IsUpperAlnum(s[p])
      invariant 1 <= p <= |s|
      invariant forall i :: 1 <= i < p ==> IsUpperAlnum(s[i])
    {
      p := p + 1;
    }
    if p < 2 || p + 1 >= |s| || s[p] != '-' {
      b := false;
    } else {
      b := true;
      for i := p + 1 to |s|
        invariant b <==> forall j :: p < j < i ==> IsDigit(s[j])
      {
        if !IsDigit(s[i]) {
          b := false;
        }
      }
    }
    if !b {
      forall q | 0 <= q < |s| ensures !KeyAt(s, q) {
        if 1 <= q < p {
          assert IsUpperAlnum(s[q]);
        }
      }
    } else {
      assert KeyAt(s, p);
    }
  }

  /** The subject line: `type(KEY): message`, or `KEY: message` without a
      type. */
  function Subject(key: string, message: string, commitType: Option<string>): (s: string)
    ensures |message| < |s| && s[|s| - |message|..] == message
    ensures Filled(commitType) ==> StartsWith(s, commitType.value + "(" + key + ")")
    ensures !Filled(commitType) ==> StartsWith(s, key + ":")
    ensures OccursAt(s, key, if Filled(commitType) then |commitType.value| + 1 else 0)
  {
    if Filled(commitType) then commitType.value + "(" + key + "): " + message else key + ": " + message
  }

  /** `git commit -m "…"` around the message with its double quotes escaped. */
  function GitCommand(message: string): (c: string)
    ensures c == "git commit -m \"" + EscapeQuotes(message) + "\""
    ensures UnescapeQuotes(c[15..|c| - 1]) == message
  {
    var c := "git commit -m \"" + EscapeQuotes(message) + "\"";
    assert c[15..|c| - 1] == EscapeQuotes(message);
    EscapeRoundTrip(message);
    c
  }

  /** The lines added below the subject: a blank line, the summary and, when
      known, the issue type. */
  function Details(info: IssueInfo): (d: string)
    ensures StartsWith(d, "\n\nRelated to: " + info.summary)
    ensures info.issueType == "" ==> d == "\n\nRelated to: " + info.summary
  {
    var head := "\n\nRelated to: " + info.summary;
    var d := head + (if info.issueType != "" then "\nIssue type: " + info.issueType else "");
    assert d[..|head|] == head;
    d
  }

  /** `execute`. The key is upper-cased and the message stripped before the
      checks; with validation on, a failed lookup is reported as a
      ValueError saying the issue was not found. The summary lines are added
      only when asked for and a non-empty summary was fetched. */
  function Format(args: Args, lookup: Result<IssueInfo>): (r: Result<Commit>)
    ensures var key := Upper(OrElse(args.issueKey, ""));
      var message := Strip(OrElse(args.message, ""));
      && (key == "" ==> r == Err(ValueError("issueKey is required")))
      && (key != "" && message == "" ==> r == Err(ValueError("message is required")))
      && (key != "" && message != "" && !ValidIssueKey(key) ==>
            r == Err(ValueError("Invalid issue key format: " + key + ". Expected format: PROJ-123")))
      && (key != "" && message != "" && ValidIssueKey(key) && Truthy(OrElse(args.validate, Bool(true))) && lookup.Err? ==>
            r == Err(ValueError("Issue " + key + " not found: " + lookup.error.message)))
      && (message != "" && ValidIssueKey(key) && (!Truthy(OrElse(args.validate, Bool(true))) || lookup.Ok?) ==> r.Ok?)
      && (r.Ok? ==> r.value.issueKey == key && ValidIssueKey(key))
      && (r.Ok? ==> r.value.subject == Subject(key, message, args.commitType))
    ensures r.Ok? ==> StartsWith(r.value.commitMessage, r.value.subject)
    ensures r.Ok? ==> r.value.gitCommand == GitCommand(r.value.commitMessage)
    ensures r.Ok? && !Truthy(OrElse(args.validate, Bool(true))) ==>
      r.value.issueSummary == None && r.value.commitMessage == r.value.subject
    ensures r.Ok? && Truthy(OrElse(args.validate, Bool(true))) ==> lookup.Ok?
    ensures r.Ok? && Truthy(OrElse(args.validate, Bool(true))) ==>
      r.value.issueSummary == (if lookup.value.summary != "" then Some(lookup.value.summary) else None)
    ensures r.Ok? && r.value.commitMessage != r.value.subject ==>
      Truthy(OrElse(args.includeDescription, Bool(false))) && r.value.issueSummary.Some?
  {
    var key := Upper(OrElse(args.issueKey, ""));
    var message := Strip(OrElse(args.message, ""));
    if key == "" then Err(ValueError("issueKey is required"))
    else if message == "" then Err(ValueError("message is required"))
    else if !ValidIssueKey(key) then Err(ValueError("Invalid issue key format: " + key + ". Expected format: PROJ-123"))
    else if Truthy(OrElse(args.validate, Bool(true))) && lookup.Err? then
      Err(ValueError("Issue " + key + " not found: " + lookup.error.message))
    else
      var info := if Truthy(OrElse(args.validate, Bool(true))) then Some(lookup.value) else None;
      var summary := if info.Some? && info.value.summary != "" then Some(info.value.summary) else None;
      var subject := Subject(key, message, args.commitType);
      var details :=
        if Truthy(OrElse(args.includeDescription, Bool(false))) && summary.Some? then Details(info.value) else "";
      var commitMessage := subject + details;
      assert commitMessage[..|subject|] == subject;
      Ok(Commit(key, commitMessage, subject, summary, GitCommand(commitMessage)))
  }

  /** With a valid key, a message, the description requested and a summary
      fetched, the commit succeeds and its message is the subject, a blank
      line, the summary and, when known, the issue type. */
  lemma DescribedCommit(args: Args, info: IssueInfo)
    requires ValidIssueKey(Upper(OrElse(args.issueKey, ""))) && Strip(OrElse(args.message, "")) != ""
    requires Truthy(OrElse(args.validate, Bool(true))) && Truthy(OrElse(args.includeDescription, Bool(false)))
    requires info.summary != ""
    ensures Format(args, Ok(info)).Ok?
    ensures var c := Format(args, Ok(info)).value;
      c.commitMessage == c.subject + Details(info)
  {
    var key := Upper(OrElse(args.issueKey, ""));
    assert key != "";
  }
}
