# mcp-jira-python in Dafny

A model of the core of mcp-jira-python, an MCP server that exposes Jira to
language-model clients as a set of tools. The model covers two parts.

- **FieldMapper.** This object lazily fetches Jira's field list once. It then
  answers lookups from four caches: a name-to-id map keyed by both the exact
  and the lower-cased name, an id-to-name map, an id-to-descriptor map and
  the set of custom-field ids. It also rewrites the keys of a field
  dictionary from names to ids and back.
- **The decision logic of fourteen tool handlers.** These are
  transition_issue, create_issue, update_issue, get_issue, audit_issue,
  format_commit, get_create_meta, suggest_issue_fields, get_transitions,
  get_epic_issues, list_epics, search_my_issues, get_field_mapping and
  list_projects.

Every Jira call a handler makes is an input. A call that can fail is a
`Result`, whose `Err` is the exception it raised. The handlers' answers are
datatypes rather than JSON text. FieldMapper is a class whose methods update
its caches, with the Jira `fields()` call as a `FieldSource` object that
counts its calls.

Modules, one per file:

- `Values`: Python values, exceptions, dicts kept in insertion order, truthiness, slices and filters.
- `Strings`: lower/upper case, substring tests, strip, join, quote escaping and string order.
- `Records`: transitions and create-screen metadata.
- `FieldCaches`: the caches as functions of a field list, with their lemmas.
- `FieldMappers`: the FieldMapper and FieldSource classes.
- `Searches`: search hits and JQL assembly.
- One module per handler.

## Model

| member | source | states |
|---|---|---|
| FieldMappers.FieldMapper.constructor | src/mcp_jira_python/field_mapper.py:31-43 | A new mapper holds no fields, its caches are empty and it is not initialized. |
| FieldMappers.FieldMapper.Initialize | src/mcp_jira_python/field_mapper.py:45-56 | Once initialized it does not fetch again. Otherwise it calls `fields()` exactly once and its caches are those built from the result. |
| FieldMappers.FieldMapper.BuildCaches | src/mcp_jira_python/field_mapper.py:58-76 | The loop leaves the four caches equal to `Build` of the field list. |
| FieldMappers.FieldMapper.Refresh | src/mcp_jira_python/field_mapper.py:78-84 | It always fetches again: the field list is the new snapshot, there is exactly one more call and the caches are rebuilt. |
| FieldMappers.FieldMapper.EnsureInitialized | src/mcp_jira_python/field_mapper.py:207-210 | After it the mapper is loaded. It fetches only when it was not initialized. |
| FieldMappers.FieldMapper.GetId | src/mcp_jira_python/field_mapper.py:86-97 | The result is found exactly when some fetched name equals the query ignoring case, and it is then the id of such a field. An unknown name gives None. |
| FieldMappers.FieldMapper.GetName | src/mcp_jira_python/field_mapper.py:99-109 | The result is found exactly when some fetched field has the id. |
| FieldMappers.FieldMapper.GetField | src/mcp_jira_python/field_mapper.py:111-121 | A found descriptor has the id and is one of the fetched fields. An unknown id gives None. |
| FieldMappers.FieldMapper.IsCustomField | src/mcp_jira_python/field_mapper.py:123-133 | True exactly for ids fetched with custom set to true. |
| FieldMappers.FieldMapper.GetCustomFields | src/mcp_jira_python/field_mapper.py:135-142 | One fetched descriptor per custom id, in an unspecified order. |
| FieldMappers.FieldMapper.GetAllFields | src/mcp_jira_python/field_mapper.py:144-151 | The fetched list. |
| FieldMappers.FieldMapper.TranslateFields | src/mcp_jira_python/field_mapper.py:153-183 | The result equals the key-by-key rewrite to ids. Each pair comes from an input pair with its value unchanged. |
| FieldMappers.FieldMapper.TranslateFieldNames | src/mcp_jira_python/field_mapper.py:185-205 | The result equals the key-by-key rewrite to names. Each pair comes from an input pair with its value unchanged. |
| FieldMappers.FieldMapper.Length | src/mcp_jira_python/field_mapper.py:212-215 | The number of fetched fields. |
| FieldMappers.FieldMapper.Has | src/mcp_jira_python/field_mapper.py:217-220 | True exactly when the key is a fetched name, the lower-cased form of one, or a fetched id. |
| FieldMappers.FieldSource.Fields | src/mcp_jira_python/field_mapper.py:54 | Returns the current snapshot and counts one call. |
| FieldMappers.LazyFetchOnce | src/mcp_jira_python/field_mapper.py:51-56 | Three lookups on a fresh mapper make exactly one `fields()` call. |
| FieldMappers.RefreshForgets | src/mcp_jira_python/field_mapper.py:78-84 | After `refresh`, the length is the new count and a name known only before resolves to None. |
| FieldCaches.NameKeyCached | src/mcp_jira_python/field_mapper.py:65-73 | A name key is cached exactly when some field writes it, and it then holds the id of the last such field. |
| FieldCaches.IdCached | src/mcp_jira_python/field_mapper.py:72-73 | An id is cached exactly when some field has it, with the name and descriptor of the last such field. |
| FieldCaches.CustomCached | src/mcp_jira_python/field_mapper.py:75-76 | An id is custom exactly when some field with that id says custom. |
| FieldCaches.CachesCoherent | src/mcp_jira_python/field_mapper.py:58-76 | The caches agree: every cached id has a descriptor under its own id, and every custom id has a descriptor. |
| FieldCaches.LookupIdSound | src/mcp_jira_python/field_mapper.py:86-97 | `get_id` finds something exactly when a name matches ignoring case, and what it finds is the id of such a field. |
| FieldCaches.GetIdOfUniqueName | src/mcp_jira_python/field_mapper.py:86-97 | A field whose name no other field shares is found by every case variant of its name. |
| FieldCaches.GetNameAndField | src/mcp_jira_python/field_mapper.py:99-121 | An unknown id gives None. A cached id gives the last field's name and descriptor. |
| FieldCaches.GetNameOfUniqueId | src/mcp_jira_python/field_mapper.py:99-121 | A field whose id is unique is what `get_name` and `get_field` return for it. |
| FieldCaches.CustomIff | src/mcp_jira_python/field_mapper.py:123-133 | Custom exactly for ids fetched with custom true. A missing flag counts as false. |
| FieldCaches.ContainsIff | src/mcp_jira_python/field_mapper.py:217-220 | Membership is exactly: a name, a lower-cased name or an id. |
| FieldCaches.CustomListing | src/mcp_jira_python/field_mapper.py:135-142 | One entry per custom id, each a fetched custom descriptor. |
| FieldCaches.CollectCustom | src/mcp_jira_python/field_mapper.py:141-142 | Walking the set in any order yields each id's descriptor once. |
| FieldCaches.TranslateKeyTiers | src/mcp_jira_python/field_mapper.py:172-183 | A known id is kept. Otherwise a name resolving to a non-empty id becomes that id. Otherwise the key passes through. |
| FieldCaches.NameRoundTrip | src/mcp_jira_python/field_mapper.py:153-205 | A unique name translates to its id in any case variant, and that id translates back to the name. |
| FieldCaches.RekeyKeys | src/mcp_jira_python/field_mapper.py:172-183 | The rebuilt dict has exactly the new keys, each once. |
| FieldCaches.RekeyInjective | src/mcp_jira_python/field_mapper.py:172-183 | Without collisions, the rebuilt dict is the input with its keys replaced, in order. |
| FieldCaches.RekeyValues | src/mcp_jira_python/field_mapper.py:172-183 | No value is invented or changed. |
| FieldCaches.TranslateFieldsKeys | src/mcp_jira_python/field_mapper.py:153-183 | Known ids stay, resolvable names become ids, and values ride along. |
| FieldCaches.TranslatePreservesIds | src/mcp_jira_python/field_mapper.py:172-175 | A dict keyed only by known ids comes back unchanged. |
| FieldCaches.TranslateFieldNamesKeys | src/mcp_jira_python/field_mapper.py:185-205 | A known id with a non-empty name becomes that name. Other keys pass through, and values are kept. |
| FieldCaches.MergeCustomGet | src/mcp_jira_python/tools/create_issue.py:110-113 | After the merge a translated custom key overrides. Every other key keeps its standard value. The keys are the union, and distinct keys stay distinct. |
| Records.AllowedName | src/mcp_jira_python/tools/get_create_meta.py:76-81 | The name of an allowed value, else its value, else its string form. |
| Records.AllowedNames | src/mcp_jira_python/tools/suggest_issue_fields.py:98-102 | Only dict entries are kept, each as its `AllowedName`. |
| Records.AllowedNamesAppend | src/mcp_jira_python/tools/suggest_issue_fields.py:98-102 | The names of two lists joined are the names of the first followed by those of the second, so the order of the values is kept. |
| Records.AllowedNamesSnoc | src/mcp_jira_python/tools/suggest_issue_fields.py:98-102 | Appending a value appends its name when it is a dict and nothing otherwise. |
| TransitionIssue.Pick | src/mcp_jira_python/tools/transition_issue.py:64-84 | A picked transition is one of those offered. |
| TransitionIssue.PickTiers | src/mcp_jira_python/tools/transition_issue.py:64-84 | An id match wins first, then the first exact name ignoring case, then the first name containing the input. Nothing is found exactly when no id matches and no name contains the input. |
| TransitionIssue.FindTransition | src/mcp_jira_python/tools/transition_issue.py:64-84 | The three search loops compute `Pick`. |
| TransitionIssue.Execute | src/mcp_jira_python/tools/transition_issue.py:91-156 | Empty issueKey or transition raises ValueError before any call. No match raises ValueError listing the names, and nothing is sent. The request has a comment only for a non-empty comment, and fields only when non-empty and translated. The mapper is left alone unless fields are sent; when they are, it is loaded: fetched once if it was empty, otherwise not fetched again. The report has the target name and "Added". ValueErrors pass through; other errors are wrapped. |
| CreateIssue.Base | src/mcp_jira_python/tools/create_issue.py:93-97 | The dict always starts with project, summary and issuetype. |
| CreateIssue.StandardFields | src/mcp_jira_python/tools/create_issue.py:93-107 | The keys are project, summary and issuetype, plus description, priority and assignee exactly when given. Keys are distinct. |
| CreateIssue.StandardValues | src/mcp_jira_python/tools/create_issue.py:93-107 | The project is nested by key and the issue type by name. Priority is nested by name and assignee by email address. Summary and description are verbatim. |
| CreateIssue.Execute | src/mcp_jira_python/tools/create_issue.py:84-125 | A missing required argument raises ValueError and nothing is sent. Otherwise the standard fields merged with the translated custom fields are sent. The response is the created key, id and self. Without custom fields, or with a required argument missing, the mapper is not touched. Otherwise it is loaded: fetched once if it was empty, otherwise not fetched again. |
| CreateIssue.SentFields | src/mcp_jira_python/tools/create_issue.py:110-113 | A translated custom key overrides a standard key. Without custom fields exactly the standard fields are sent. |
| UpdateIssue.StandardUpdates | src/mcp_jira_python/tools/update_issue.py:86-95 | Exactly those of summary, description, assignee and priority that are given. |
| UpdateIssue.StandardValues | src/mcp_jira_python/tools/update_issue.py:86-95 | Summary and description are verbatim. Assignee is nested by email address and priority by name. |
| UpdateIssue.Execute | src/mcp_jira_python/tools/update_issue.py:78-111 | An empty key raises ValueError. A failed lookup sends nothing. Otherwise the merged dict is sent once, and the answer is the update's error or the "updated successfully" message. The mapper is loaded exactly when there are custom fields to translate; otherwise it is not touched. |
| UpdateIssue.SentFields | src/mcp_jira_python/tools/update_issue.py:98-101 | Custom keys override the standard ones. Without custom fields exactly the standard updates are sent. |
| GetIssue.FirstKey | src/mcp_jira_python/tools/get_issue.py:74-78 | Found exactly when one of the keys is present, with the value of the first one present. |
| GetIssue.FirstOfThree | src/mcp_jira_python/tools/get_issue.py:74-83 | Of three keys, the first one present wins. |
| GetIssue.FormatValue | src/mcp_jira_python/tools/get_issue.py:61-86 | None and primitives are unchanged. A list keeps its length, and each item is formatted in turn, in order. A dict becomes its name, else value, else displayName entry, and otherwise stays. An object becomes the text of its displayName, else name, else value, and otherwise stays. |
| GetIssue.NoneEligible | src/mcp_jira_python/tools/get_issue.py:96-103 | Without a non-null custom field the extraction is empty, whatever the caches. |
| GetIssue.CustomFieldsShape | src/mcp_jira_python/tools/get_issue.py:88-117 | Keys are distinct and every kept value is non-empty. Each pair comes from an eligible field under its friendly name with its formatted value. Every eligible field with a kept value is present. |
| GetIssue.ExtractCustomFields | src/mcp_jira_python/tools/get_issue.py:88-117 | The loop computes `CustomFieldsOf` against the mapper's caches. It never touches the mapper when nothing is eligible. When something is, the mapper is loaded: fetched once if it was empty, otherwise not fetched again. |
| GetIssue.Execute | src/mcp_jira_python/tools/get_issue.py:119-192 | An empty key raises ValueError. A UnicodeError becomes a notice; other errors are wrapped. customFieldsOnly gives just key and custom fields. Otherwise the standard fields are given, with custom fields only when requested. The mapper is loaded when custom fields are extracted and some raw field is eligible. It is not touched on the error paths or when custom fields are not requested. |
| AuditIssue.DescriptionFindings | src/mcp_jira_python/tools/audit_issue.py:49-100 | A missing description is one issue and one suggestion. Otherwise: short exactly under 50 characters; missing criteria exactly when checked and no keyword occurs; missing DoD is only ever a suggestion. |
| AuditIssue.FirstSet | src/mcp_jira_python/tools/audit_issue.py:102-109 | None exactly when no candidate is set. Otherwise the value of the first candidate that is set, no earlier candidate being set. |
| AuditIssue.GetCustomField | src/mcp_jira_python/tools/audit_issue.py:102-109 | The loop computes `FirstSet`, which is the value of the first set candidate. A found value is never None. |
| AuditIssue.EstimableFindings | src/mcp_jira_python/tools/audit_issue.py:111-142 | Only stories, tasks and bugs are checked. Missing points are the only possible issue; a missing epic is only a suggestion. |
| AuditIssue.UpkeepFindings | src/mcp_jira_python/tools/audit_issue.py:159-177 | A missing priority is the only issue. A missing assignee or labels are suggestions. |
| AuditIssue.MetadataOf | src/mcp_jira_python/tools/audit_issue.py:120-182 | The metadata holds the type's text. storyPoints and epicLink are what the estimate checks found. Priority is its text, present exactly when set. The assignee is its displayName, else its text, exactly when assigned. Labels are the issue's own list, exactly when non-empty. Components are the text of each component, in order, exactly when the list is non-empty. |
| AuditIssue.MetadataFindings | src/mcp_jira_python/tools/audit_issue.py:144-182 | The findings of the estimate checks for the lower-cased type and of the priority, assignee and labels checks. The metadata is `MetadataOf` the issue. |
| AuditIssue.Score | src/mcp_jira_python/tools/audit_issue.py:184-192 | The score is within 0 to 100. It is 100 exactly with no findings, 0 exactly when the penalty reaches 100, and otherwise 100 − 15·issues − 5·suggestions. |
| AuditIssue.ScoreMonotone | src/mcp_jira_python/tools/audit_issue.py:184-192 | More findings never raise the score. |
| AuditIssue.Level | src/mcp_jira_python/tools/audit_issue.py:226-233 | Excellent at 90 or more, Good at 75 to 89, Needs Improvement at 50 to 74, Poor below 50, each as an if-and-only-if. |
| AuditIssue.ExcellentIff | src/mcp_jira_python/tools/audit_issue.py:184-233 | Excellent exactly when there is no issue and at most two suggestions. |
| AuditIssue.QuickActions | src/mcp_jira_python/tools/audit_issue.py:246-251 | Present exactly when anything was found. It mentions the description and story points exactly when those issues were found. |
| AuditIssue.Audit | src/mcp_jira_python/tools/audit_issue.py:194-261 | An empty key raises ValueError; lookup failures are wrapped. With a key and a fetched issue the audit succeeds. The score, level and quick actions agree with the findings. |
| AuditIssue.NoDescriptionAudit | src/mcp_jira_python/tools/audit_issue.py:63-66 | An issue without a description is never Excellent and gets the description quick action. |
| FormatCommit.AsWrittenAcceptsNewline | src/mcp_jira_python/tools/format_commit.py:69-72 | The pattern as written accepts "PROJ-1\n", which is not a valid key. |
| FormatCommit.ValidKeyShape | src/mcp_jira_python/tools/format_commit.py:69-72 | A valid key is capitals, digits and a dash: no whitespace, and unchanged by upper-casing. |
| FormatCommit.MatchesKey | src/mcp_jira_python/tools/format_commit.py:69-72 | True exactly for a letter, then letters or digits, then "-", then digits, with nothing after. |
| FormatCommit.Subject | src/mcp_jira_python/tools/format_commit.py:103-108 | The subject ends with the message. It begins with `type(KEY)` when a type is given and with `KEY:` otherwise, so the key stands right after `type(` or at the start. |
| FormatCommit.GitCommand | src/mcp_jira_python/tools/format_commit.py:128-129 | `git commit -m "…"` around the escaped message; unescaping gives the message back. |
| FormatCommit.Format | src/mcp_jira_python/tools/format_commit.py:74-136 | The key is upper-cased and the message stripped. Empty key or message, or an invalid key, raises ValueError. A valid key and a message succeed, unless validation is on and the lookup fails. The message starts with the subject. A lookup happens only when validating, and a failed one raises "not found". |
| FormatCommit.Details | src/mcp_jira_python/tools/format_commit.py:111-116 | The added text starts with a blank line and "Related to: " plus the summary, and is only that when the issue type is unknown. |
| FormatCommit.DescribedCommit | src/mcp_jira_python/tools/format_commit.py:103-125 | Suppose the key is valid, the message non-empty, the description requested and a summary fetched. Then the commit succeeds and its message is the subject followed by the details lines. |
| Strings.EscapeRoundTrip | src/mcp_jira_python/tools/format_commit.py:128-129 | Escaping double quotes loses nothing. |
| Strings.StripEmptyIff | src/mcp_jira_python/tools/format_commit.py:76-84 | A message is empty after stripping exactly when it is all whitespace. |
| GetCreateMeta.InfoOf | src/mcp_jira_python/tools/get_create_meta.py:55-83 | The name is the metadata's name, else the mapper's, else the id. required holds exactly when it is set true. The type needs a schema. allowedValues is present exactly for 1 to 20 entries. |
| GetCreateMeta.Infos | src/mcp_jira_python/tools/get_create_meta.py:127-132 | project and issuetype are never formatted. |
| GetCreateMeta.Split | src/mcp_jira_python/tools/get_create_meta.py:127-137 | The required list holds only required fields and the optional list only the others. |
| GetCreateMeta.SplitPartitions | src/mcp_jira_python/tools/get_create_meta.py:127-137 | Every non-system field lands in exactly one list. |
| GetCreateMeta.OnlySystemFields | src/mcp_jira_python/tools/get_create_meta.py:129-130 | A type with only system fields gives two empty lists. |
| GetCreateMeta.FormatFieldInfo | src/mcp_jira_python/tools/get_create_meta.py:55-83 | Computes `InfoOf` against the loaded mapper. |
| GetCreateMeta.SplitFields | src/mcp_jira_python/tools/get_create_meta.py:124-137 | The loop computes `Split`. With only system fields the mapper is not touched. Otherwise it is loaded: fetched once if it was empty, otherwise not fetched again. |
| GetCreateMeta.Insert | src/mcp_jira_python/tools/get_create_meta.py:140-141 | Inserting into a sorted list keeps it sorted and adds exactly the element. |
| GetCreateMeta.SortByName | src/mcp_jira_python/tools/get_create_meta.py:140-141 | The list is sorted by name and is a permutation of its input. |
| GetCreateMeta.TypeResultOf | src/mcp_jira_python/tools/get_create_meta.py:139-151 | Both lists are sorted. The optional list keeps the first 15 in name order: it is a prefix of the sorted optional fields, and no optional field left out sorts before one kept. The total is the untruncated count. |
| GetCreateMeta.TypeResults | src/mcp_jira_python/tools/get_create_meta.py:120-151 | One result per selected type. |
| GetCreateMeta.TypeResultsWithoutFields | src/mcp_jira_python/tools/get_create_meta.py:120-151 | Without non-system fields the results do not depend on the caches. |
| GetCreateMeta.JoinNames | src/mcp_jira_python/tools/get_create_meta.py:113-116 | Joining fails exactly when some type has no name. |
| GetCreateMeta.Selected | src/mcp_jira_python/tools/get_create_meta.py:106-111 | All types without a filter. With one, exactly the types whose name equals it ignoring case. |
| GetCreateMeta.ClassifyTypes | src/mcp_jira_python/tools/get_create_meta.py:120-151 | The loop computes `TypeResults` against the mapper's caches. With only system fields the mapper is not touched. Otherwise it is loaded: fetched once if it was empty, otherwise not fetched again. |
| GetCreateMeta.Execute | src/mcp_jira_python/tools/get_create_meta.py:85-170 | An empty key raises ValueError. No project raises "not found or no access". An unknown type raises ValueError with the Available names. ValueErrors pass through and others are wrapped. The project name defaults to the key. On errors the mapper is not touched. On success it is loaded exactly when some selected type has a non-system field. |
| SuggestIssueFields.Recommendations | src/mcp_jira_python/tools/suggest_issue_fields.py:41-78 | story or user story: Story Points and Epic Link. bug: Priority and Steps to Reproduce. task: Story Points. epic: Epic Name. Anything else: nothing. |
| SuggestIssueFields.EntryOf | src/mcp_jira_python/tools/suggest_issue_fields.py:91-102 | The name defaults to the id. Allowed values are present exactly for 1 to 10 entries. |
| SuggestIssueFields.ExtractedFrom | src/mcp_jira_python/tools/suggest_issue_fields.py:80-109 | Exactly the required non-system fields are required. Exactly the non-required priority, labels and components are optional. |
| SuggestIssueFields.ExtractFields | src/mcp_jira_python/tools/suggest_issue_fields.py:80-109 | The loop computes `Extracted`. |
| SuggestIssueFields.Execute | src/mcp_jira_python/tools/suggest_issue_fields.py:124-198 | Empty arguments raise ValueError, and "not found" ValueErrors pass through. With both arguments, metadata and a project, the call succeeds. An unknown type is an error object listing the types. Epics are searched only for non-epic types, a failed search counts as none, and epics are listed only when there are some. |
| GetTransitions.RequiredOfExactly | src/mcp_jira_python/tools/get_transitions.py:59-69 | Exactly the required fields are listed, each named by its name else its id. The list is empty exactly when none is required. |
| GetTransitions.CollectRequired | src/mcp_jira_python/tools/get_transitions.py:61-67 | The inner loop computes `RequiredOf`. |
| GetTransitions.Execute | src/mcp_jira_python/tools/get_transitions.py:36-87 | An empty key raises ValueError and failures are wrapped. Otherwise the key, the current status and the entries. |
| Searches.AssembleKeepsParts | src/mcp_jira_python/tools/search_my_issues.py:93 | The assembled query contains every clause and ends with the ORDER BY part. |
| Searches.JoinHasParts | src/mcp_jira_python/tools/list_epics.py:71 | Every part occurs in the join. |
| GetEpicIssues.EpicJql | src/mcp_jira_python/tools/get_epic_issues.py:63-72 | The exact query for open, done and any other filter. |
| GetEpicIssues.InfoOf | src/mcp_jira_python/tools/get_epic_issues.py:88-105 | storyPoints is present exactly when the points are truthy. |
| GetEpicIssues.TallyBounds | src/mcp_jira_python/tools/get_epic_issues.py:81-117 | totalIssues is the number of issues and doneIssues ≤ totalIssues. With non-negative points, 0 ≤ donePoints ≤ totalPoints. The done tallies equal the totals when all are done, and are 0 when none is. |
| GetEpicIssues.Summarise | src/mcp_jira_python/tools/get_epic_issues.py:82-114 | The loop computes the entries and `Tally`. |
| GetEpicIssues.Execute | src/mcp_jira_python/tools/get_epic_issues.py:47-144 | An empty key raises ValueError before any call, and failures are wrapped. The search uses `EpicJql`, the given limit (default 100) and the fixed field list. The filter defaults to "all". |
| ListEpics.EpicsJqlText | src/mcp_jira_python/tools/list_epics.py:58-71 | The exact query for open, done and any other filter. |
| ListEpics.Execute | src/mcp_jira_python/tools/list_epics.py:48-112 | An empty key raises ValueError and failures are wrapped. The filter defaults to open and the limit to 50, passed through. count equals the number of epics, one entry each, in order. |
| SearchMyIssues.MyJqlClauses | src/mcp_jira_python/tools/search_my_issues.py:67-93 | The query starts with the role clause and contains the project and status clauses when given. It ends with the order. |
| SearchMyIssues.MyJqlText | src/mcp_jira_python/tools/search_my_issues.py:67-93 | The query word for word: the role clause, " AND project = KEY" exactly when a key is given, " AND " and the status clause exactly for "in_progress" and "open", then the order. |
| SearchMyIssues.QueryText | src/mcp_jira_python/tools/search_my_issues.py:93 | Clauses joined by " AND ", with the order after a space, spelled out for one optional clause of each kind. |
| SearchMyIssues.StartsWithFirst | src/mcp_jira_python/tools/search_my_issues.py:93 | An assembled query begins with its first clause. |
| SearchMyIssues.Execute | src/mcp_jira_python/tools/search_my_issues.py:59-142 | Failures are wrapped. count is the number of issues, in order. projectFilter only for a given project. The filters are echoed. The hint is present exactly when there are issues, and quotes the first key. |
| GetFieldMapping.EntryOf | src/mcp_jira_python/tools/get_field_mapping.py:76-84 | Name and id are copied. custom is true exactly when the flag is true. type is the schema's type, or None without a schema. |
| GetFieldMapping.Found | src/mcp_jira_python/tools/get_field_mapping.py:63-70 | Exactly the fields that pass both filters. The custom filter followed by the name filter is one filter by both, in Jira's order. |
| GetFieldMapping.Mapping | src/mcp_jira_python/tools/get_field_mapping.py:55-98 | A failing `fields()` propagates. count is the number listed, and totalAvailable is the number of all fields. |
| GetFieldMapping.MappingSound | src/mcp_jira_python/tools/get_field_mapping.py:63-84 | Every listed entry is that of a field from Jira's list that passes both filters. |
| GetFieldMapping.MappingBounded | src/mcp_jira_python/tools/get_field_mapping.py:73 | With a non-negative limit, at most `limit` fields are listed: exactly `limit` when more fields match, and every match otherwise. |
| GetFieldMapping.MappingFirst | src/mcp_jira_python/tools/get_field_mapping.py:63-84 | The listing is the entries of the first `limit` matching fields in Jira's order, cut as Python's `[:limit]` cuts, negative limits included. |
| GetFieldMapping.MappingComplete | src/mcp_jira_python/tools/get_field_mapping.py:63-84 | When the limit is at least the number of fields, every field that passes the filters is listed. |
| ListProjects.Matching | src/mcp_jira_python/tools/list_projects.py:50-56 | Exactly the projects whose key or name contains the query ignoring case; all of them for an empty query. |
| ListProjects.Execute | src/mcp_jira_python/tools/list_projects.py:41-95 | Failures are wrapped. The listing is the matching projects cut to maxResults, in order. The filter is echoed exactly for a non-empty query. |
| ListProjects.ListingSelects | src/mcp_jira_python/tools/list_projects.py:50-59 | Every listed project matches. At most maxResults are listed, and when the limit is at least the number of matches every match is listed. |
| Values.Reraised | src/mcp_jira_python/tools/transition_issue.py:153-156 | A ValueError passes unchanged; anything else becomes "prefix: message". |
| Values.Take | src/mcp_jira_python/tools/get_field_mapping.py:73 | Python's `[:n]`: a prefix whose length follows the slice rules, negative n included. |
| Values.Filter | src/mcp_jira_python/tools/list_projects.py:52-56 | Exactly the elements satisfying the condition. |
| Values.FilterAppend | src/mcp_jira_python/tools/list_projects.py:52-56 | Filtering a concatenation filters each part in turn, so the kept elements stay in order. |
| Values.FilterSame | src/mcp_jira_python/tools/get_field_mapping.py:63-70 | Two conditions that agree on every element keep the same elements. |
| Values.FilterFilter | src/mcp_jira_python/tools/get_field_mapping.py:63-70 | Filtering by one condition and then another is filtering once by both. |
| Values.FilterSnoc | src/mcp_jira_python/tools/list_projects.py:52-56 | Appending an element appends it to the result exactly when it passes. |

## Left out

- Jira itself. Every remote call (`fields`, `issue`, `transitions`, `transition_issue`, `createmeta`, `create_issue`, `update`, `search_issues`, `projects`) is an input value or an error. Issue search results are assumed to respect `maxResults`.
- JSON text. Handlers return datatypes, not the `json.dumps` text. update_issue's answer is the text the source builds by hand; a key containing a quote is not escaped there.
- The lazy `_get_field_mapper` property of the handlers and its RuntimeError. The mapper is passed in, already constructed.
- The second `transitions()` call in transition_issue and the second `fields()` call in get_field_mapping. Each is modelled as returning the same list as the first.
- Async execution, the server, tool dispatch, and the attachment and file tools. These are I/O with no decision logic.
- Floating point. get_epic_issues' percentComplete and pointsPercentComplete are left out, and story points are integers.
- Unicode. Case mapping is ASCII only, `\d` means ASCII digits, and `strip` removes ASCII whitespace only.
- Argument types outside the tools' schemas (a JSON null where a string is expected, for example). Absent arguments are `None`.
- Field descriptors without an id or a name, and labels or components that are not lists.
- `fields()` in FieldMapper never fails; an exception there is not modelled.
- GetCreateMeta.SortByName: sorted and a permutation, computed by a stable insertion sort on values. The in-place `list.sort` is not modelled, and stability is not stated.
- FieldMappers.FieldMapper.GetCustomFields: the order is left unspecified, as the source walks a set.
- FormatCommit.Format: applies the corrected key check (see Findings), so it rejects a key with a trailing newline that the source accepts.
- GetEpicIssues.TallyBounds: donePoints ≤ totalPoints is stated only for non-negative story points, as a negative estimate breaks it in the source too.

## Findings

| source | as written | input that shows it | evidently intended | confidence | as-written member | corrected member |
|---|---|---|---|---|---|---|
| src/mcp_jira_python/tools/format_commit.py:71 | `re.match(r"^[A-Z][A-Z0-9]+-\d+$", key)`; `$` also matches just before a final newline | issueKey "proj-1\n": upper-cased to "PROJ-1\n", accepted, and echoed in the subject and git command with the newline | the whole key has the shape LETTER, letters or digits, "-", digits (`\Z` or `re.fullmatch`) | not executed | FormatCommit.AsWrittenAcceptsNewline | FormatCommit.MatchesKey |
