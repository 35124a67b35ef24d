# Datwise issue tracker: a Dafny model of its core

Datwise is an issue tracker for security and safety incidents. Staff
report an issue through a web form. An API stores it. A dashboard lists
the issues, which can be filtered, sorted and summarised in statistics.
This project models the core of that system and proves what it does:

- **The Issue record** (`issue.dfy`, module `Issues`). It has the
  source's properties and their initialisers: severity "Medium", status
  "Open", empty strings, and no resolution data. Dates are tick counts.
- **The repository's queries** (`queries.dfy` and `ordering.dfy`).
  - `GetIssuesAsync` applies the status and severity filters. With a
    blank `sortBy` it uses the default order: severity rank, then newest.
    Otherwise it calls `ApplySorting`.
  - `ApplySorting` strips every leading `-`, lower-cases the name,
    accepts nine field names, and falls back to newest first.
  - `GetAllIssuesAsync`, `GetOpenIssuesAsync`, `GetIssuesBySeverityAsync`,
    `GetIssuesByStatusAsync` and the lookup by id are modelled too.
  - The orderings are applied by a stable insertion sort. It is proved to
    return a sorted permutation that keeps tied issues in store order.
    Strings compare by code point. That is the order of SQLite's default
    BINARY collation, which the API's SQLite provider applies when it turns
    the ordering into SQL `ORDER BY`. SQL may return ties in any order, and
    the stable order is one of those. LINQ to Objects, which the tests'
    in-memory database uses, keeps ties in the same order as the model. It
    compares strings by culture, though, and the model does not.
- **The repository's writes** (`repository.dfy`, class
  `IssueRepository`). Create, update and delete work on a store of issues
  plus an id counter that stands for the database's key generator. Every
  write keeps the store invariant: ids are non-zero, distinct, and below
  the next generated id. An issue with Id 0 gets a generated id; a
  caller-set Id is kept, and creating it fails when it is taken.
- **The statistics** (`statistics.dfy`). These are the seven figures of
  `GetIssueStatisticsAsync`. It is proved how they bound one another and
  how each one moves when an issue is added.
- **The service's argument checks** (`service.dfy`, class
  `IssueService`). Each thrown `ArgumentException` becomes a `Failure`
  carrying its message. A refused call leaves the store unchanged.
- **The report form** (`report_form.dfy`, class `ReportIssueModel`).
  - `ValidateForm` runs the six field checks with their exact messages and
    limits. It sets the error of each failing field.
  - `IsValidSeverity` is modelled too.
  - The posted payload has every field trimmed and status "Open". It is
    proved to pass the service's create checks.
- **The dashboard's sortable headers** (`table_sorting.dfy`). This covers
  the click rule that toggles a header between ascending and descending,
  and the rule for which header is marked.
- **String operations** (`text.dfy`). These are the .NET string
  operations the code relies on: `IsNullOrWhiteSpace`, `Trim`,
  `TrimStart('-')`, `StartsWith`, `ToLower`, and the code-point order of
  strings.

## Known divergences

The model follows the code as written. It does not follow the behaviour
that the API documentation and the unit tests expect. Each divergence
below except the last is proved by the members it names. The last is
recorded from the source text and no member proves it.

- **Filters compare the whole parameter.** The controller documents
  comma-separated filters such as `status=Open,In Progress`. The
  repository compares the status with the entire string, so such a filter
  returns only issues whose status is literally `"Open,In Progress"`. See
  `IssueQueries.CommaSeparatedStatusIsOneValue`.
- **GetOpenIssuesAsync returns status "Open" only.** Issues "In Progress"
  are not returned, although the statistics count them as open. See
  `IssueQueries.GetOpenIssues`.
- **The default order puts Critical issues last.** The order is
  `OrderByDescending` on a rank in which Critical is 0 and Low is 3. With a
  blank `sortBy`, every Critical issue therefore comes after every issue
  of any other severity. The whole order is reversed: Low and unrecognised
  severities first, then Medium, then High, then Critical. See
  `IssueQueries.DefaultOrderPutsCriticalLast` and
  `IssueQueries.DefaultOrderBands`.
- **A lone `-` as the sort parameter.** The API controller strips one
  leading `-` before calling the repository. For every sort value except
  `-` followed only by white space, this gives the same order as
  `ApplySorting` alone. For `-` followed only by white space (`-` itself,
  `- ` and so on) it gives the default severity order, whereas
  `ApplySorting` on the same value would sort newest first. See
  `IssueQueries.ControllerSortAgrees` and
  `IssueQueries.ControllerLoneDashDiverges`.
- **Caller-set ids are not checked.** The API binds the whole Issue from
  the request body. The service checks only Title, Description and
  ReportedBy, so a posted Id is stored as it is. A negative Id is stored,
  and the service's update and delete then refuse that issue's id. See
  `Repository.IssueRepository.CreateIssue` and
  `Service.IssueService.CreateIssue`.
- **The sort indicator is never drawn.** In `table-sorting.js` the call
  `updateSortIndicator(th, field)` (line 31) sits in the `forEach`
  callback, but `field` is declared only inside the click handler
  (line 11). The call throws a ReferenceError on the first header. That
  stops the `forEach`: only the first header gets a click handler, and no
  header is marked. The model states the toggle rule (lines 15-23) and the
  indicator rule (lines 37-43) as written, and how they relate. It does
  not claim that the page applies them. Separately, the dashboard sends
  its sort to `/api/issues/open` (Datwise.WebForms/Pages/Index.cshtml.cs:79), a path that only
  the `{id}` route of the controller matches. The sort therefore does not
  reach `GetIssuesAsync` from the dashboard.

## Model

| member | source | states |
|---|---|---|
| Text.TrimStart | Datwise.WebForms/Pages/ReportIssue.cshtml.cs:59-65 | The result is a suffix of the input. The part removed is all white space. The result is empty or starts with a non-white character. |
| Text.TrimEnd | Datwise.WebForms/Pages/ReportIssue.cshtml.cs:59-65 | The result is a prefix of the input. The part removed is all white space. The result is empty or ends with a non-white character. |
| Text.Trim | Datwise.WebForms/Pages/ReportIssue.cshtml.cs:59-65 | `string.Trim()`: white space removed from the start, then from the end. Its meaning is stated by `Text.TrimProperties` and `Text.TrimKeepsTrimmed`. |
| Text.TrimProperties | Datwise.WebForms/Pages/ReportIssue.cshtml.cs:59-65 | `Trim` never lengthens a string. It returns "" exactly for blank strings. A non-empty result has no white space at either end. |
| Text.TrimKeepsTrimmed | Datwise.WebForms/Pages/ReportIssue.cshtml.cs:61 | `Trim` leaves unchanged a string that has no white space at either end. |
| Text.TrimStartChar | Datwise.Data/IssueRepository.cs:80 | `TrimStart('-')` returns a suffix. Every character removed is `-`, and the result does not start with `-`. |
| Text.TrimStartDashOfDashed | Datwise.Data/IssueRepository.cs:80-81 | When a string starts with `-`, removing that one `-` first does not change what `TrimStart('-')` returns. |
| Text.ToLower | Datwise.Data/IssueRepository.cs:83 | Lower-casing keeps the length. |
| Text.ToLowerIdempotent | Datwise.Data/IssueRepository.cs:83 | Lower-casing twice gives the same result as lower-casing once. |
| Text.ToLowerStartsWithDash | Datwise.Data/IssueRepository.cs:80-83 | Lower-casing neither creates nor removes a leading `-`. It commutes with dropping the first character. |
| Text.CodePointLeTotal | Datwise.Data/IssueRepository.cs:86-91 | The code-point order of strings is total. |
| Text.CodePointLeTransitive | Datwise.Data/IssueRepository.cs:86-91 | The code-point order of strings is transitive. |
| Text.CodePointLeAntisymmetric | Datwise.Data/IssueRepository.cs:86-91 | Two strings that each compare at most the other are equal. |
| Ordering.SeverityRank | Datwise.Data/IssueRepository.cs:66 | The default key is 0 for Critical, 1 for High, 2 for Medium, and 3 exactly for every other severity. |
| Ordering.FieldLeTotal | Datwise.Data/IssueRepository.cs:85-93 | The ascending comparison on each of the eight sort fields is total. |
| Ordering.FieldLeTransitive | Datwise.Data/IssueRepository.cs:85-93 | The ascending comparison on each of the eight sort fields is transitive. |
| Ordering.PrecedesTotal | Datwise.Data/IssueRepository.cs:63-94 | Every order the repository uses is total. This covers the default order and each field in each direction. |
| Ordering.PrecedesTransitive | Datwise.Data/IssueRepository.cs:63-94 | Every order the repository uses is transitive. |
| Ordering.InsertPermutes | Datwise.Data/IssueRepository.cs:63-74 | Inserting x into a list adds exactly x and keeps every other element. |
| Ordering.InsertLowerBound | Datwise.Data/IssueRepository.cs:63-74 | An issue that may precede x and every element of t may precede every element of the insertion. |
| Ordering.InsertSorted | Datwise.Data/IssueRepository.cs:63-74 | Inserting into a sorted list gives a sorted list. |
| Ordering.SortBy | Datwise.Data/IssueRepository.cs:63-74 | Sorting returns a permutation of its input, ordered by the given order. |
| Ordering.BandCons | Datwise.Data/IssueRepository.cs:63-74 | The tie group of a list with a head element is that element, when it ties, followed by the tie group of the rest. |
| Ordering.BandOfInsert | Datwise.Data/IssueRepository.cs:63-74 | Insertion puts x ahead of the issues it ties with and keeps their order. |
| Ordering.SortByStable | Datwise.Data/IssueRepository.cs:63-74 | The sort is stable: the issues tied with any key keep their input order. |
| IssueQueries.SortOrderNamed | Datwise.Data/IssueRepository.cs:83-95 | Each of the nine names picks its key in the requested direction. "id" picks Id, "title" Title, "severity" Severity, "status" Status, "department" Department, "location" Location, "reportedby" ReportedBy, and "reporteddate" and "date" both pick ReportedDate. Any other name gives ReportedDate, descending. |
| IssueQueries.ApplySorting | Datwise.Data/IssueRepository.cs:77-96 | Leading dashes are stripped and the rest is lower-cased. Each of the nine names then picks its key, as above. The direction is descending exactly when `sortBy` starts with `-` or the flag is set. An unknown name sorts newest first whatever the flag. |
| IssueQueries.Where | Datwise.Data/IssueRepository.cs:51-60 | The two `Where` clauses, in store order. What they keep is stated by `IssueQueries.WhereCounts`, `IssueQueries.WhereWithoutFilters` and `IssueQueries.BandOfWhere`. |
| IssueQueries.WhereCounts | Datwise.Data/IssueRepository.cs:51-60 | The filters keep every copy of each issue that passes both of them, and nothing else. A blank or null filter passes everything. |
| IssueQueries.SortOrderFor | Datwise.Data/IssueRepository.cs:63-72 | The order `GetIssuesAsync` applies: the severity-rank default for a null or blank `sortBy`, `ApplySorting` otherwise. `IssueQueries.GetIssues` states that its result is sorted by it. |
| IssueQueries.GetIssues | Datwise.Data/IssueRepository.cs:47-75 | The result is a permutation of the selected issues. It is ordered by the default order when `sortBy` is blank, and by `ApplySorting` otherwise. |
| IssueQueries.BandOfWhere | Datwise.Data/IssueRepository.cs:51-60 | Filtering and taking the issues tied with a key commute. |
| IssueQueries.GetIssuesStable | Datwise.Data/IssueRepository.cs:63-74 | Each group of issues with equal sort keys comes out as the store's group, filtered, in store order. |
| IssueQueries.DefaultOrderPutsCriticalLast | Datwise.Data/IssueRepository.cs:63-68 | With a blank `sortBy`, every non-Critical issue comes before every Critical issue. |
| IssueQueries.DefaultOrderBands | Datwise.Data/IssueRepository.cs:63-68 | With a blank `sortBy`, a Critical issue is followed only by Critical ones, a High one only by High or Critical ones, and a Medium one only by Medium, High or Critical ones. Low and unrecognised severities come first. |
| IssueQueries.CommaSeparatedStatusIsOneValue | Datwise.Data/IssueRepository.cs:52-55 | The status filter "Open,In Progress" keeps only issues whose status is that exact string. |
| IssueQueries.GetOpenIssues | Datwise.Data/IssueRepository.cs:20-23 | The result holds exactly the issues whose status is "Open", with their multiplicity. It is in the default order. |
| IssueQueries.GetIssuesBySeverity | Datwise.Data/IssueRepository.cs:25-28 | The result holds exactly the issues with status "Open" and the given severity (any severity when it is blank). It is in the default order. |
| IssueQueries.GetIssuesByStatus | Datwise.Data/IssueRepository.cs:30-33 | The result holds exactly the issues with the given status (all issues when it is blank). It is in the default order. |
| IssueQueries.GetAllIssues | Datwise.Data/IssueRepository.cs:40-45 | The result is a permutation of the store, newest first. |
| IssueQueries.WhereWithoutFilters | Datwise.Data/IssueRepository.cs:51-60 | Without filters the store passes through unchanged, in order. |
| IssueQueries.GetAllIssuesIsUnknownSort | Datwise.Data/IssueRepository.cs:40-45 | `GetAllIssuesAsync` equals `GetIssuesAsync` with no filters and an unrecognised, non-blank sort field. |
| IssueQueries.ApplySortingCongruent | Datwise.Data/IssueRepository.cs:79-83 | `ApplySorting` depends only on the lower-cased, dash-stripped name and on the resulting direction. |
| IssueQueries.ApplySortingLeadingDash | Datwise.Data/IssueRepository.cs:80-81 | Sorting by `-` followed by s equals sorting by s without its leading dashes, descending. |
| IssueQueries.ToLowerTrimStartDash | Datwise.Data/IssueRepository.cs:80-83 | Stripping leading dashes commutes with lower-casing. |
| IssueQueries.ApplySortingIgnoresCase | Datwise.Data/IssueRepository.cs:83 | The field name is matched without regard to case. |
| IssueQueries.DateAliasesReportedDate | Datwise.Data/IssueRepository.cs:92-93 | "date" and "reportedDate" both sort by ReportedDate in the requested direction. |
| Ordering.AscendingSeverityIsAlphabetical | Datwise.Data/IssueRepository.cs:87 | In any list sorted ascending by Severity, High never stands before Critical, nor Low before High. |
| Ordering.SeverityNamesInCodePointOrder | Datwise.Data/IssueRepository.cs:87 | By code point, "Critical" comes before "High" and "High" before "Low". |
| IssueQueries.SeverityNameSortsBySeverity | Datwise.Data/IssueRepository.cs:87 | The sort value "severity" selects the Severity key, ascending. |
| IssueQueries.SeveritySortIsAlphabetical | Datwise.Data/IssueRepository.cs:87 | An ascending "severity" sort compares the names, not their priority. A High issue never comes before a Critical one, and a Low issue never before a High one. |
| IssueQueries.ControllerSortArguments | Datwise.Api/Controllers/IssuesController.cs:34-40 | The controller strips one leading `-` from a non-blank sort and sets the descending flag. Its effect is stated by `IssueQueries.ControllerSortAgrees` and `IssueQueries.ControllerLoneDashDiverges`. |
| IssueQueries.ControllerSortAgrees | Datwise.Api/Controllers/IssuesController.cs:34-42 | The controller strips one `-` and sets the descending flag. This gives the same order as passing the raw sort value, except for `-` followed only by white space. |
| IssueQueries.StrippedDashAgrees | Datwise.Data/IssueRepository.cs:80-81 | For a value starting with `-`, sorting by the rest in descending order equals sorting by the value itself. |
| IssueQueries.ControllerLoneDashDiverges | Datwise.Api/Controllers/IssuesController.cs:34-42 | For every sort value that is `-` followed only by white space, exactly the values `ControllerSortAgrees` excludes, the controller's path gives the severity default. `ApplySorting` alone would give newest first. |
| IssueQueries.BlankAfterDashIsUnknownName | Datwise.Data/IssueRepository.cs:80-95 | Stripping the dashes of `-` followed by white space leaves no accepted field name, so the switch falls to its default. |
| IssueQueries.IndexOfId | Datwise.Data/IssueRepository.cs:35-38 | The index returned holds an issue with that id. None is returned only when no issue has that id. |
| IssueQueries.FindById | Datwise.Data/IssueRepository.cs:35-38 | The lookup returns a stored issue with that id. It returns none exactly when no stored issue has that id. |
| Statistics.LatestReportedDate | Datwise.Data/IssueRepository.cs:151 | An empty store gives MinValue. Otherwise the result is the reported date of some issue and is at least every reported date. |
| Statistics.CountOpen | Datwise.Data/IssueRepository.cs:146 | `TotalOpenIssues`: the number of issues that are Open or In Progress. `Statistics.CountsPartition` bounds it and `Statistics.CountOpenAppend` states how it moves. |
| Statistics.CountOpenWithSeverity | Datwise.Data/IssueRepository.cs:147-150 | The four severity counts: the open issues of one severity. `Statistics.CountsPartition` bounds them and `Statistics.CountOpenWithSeverityAppend` states how they move. |
| Statistics.CountResolvedSince | Datwise.Data/IssueRepository.cs:152 | `ResolvedThisMonth`: Resolved issues with a resolved date on or after the month start. `Statistics.CountResolvedSinceAppend` and `Statistics.ResolvedCountAntitone` state how it moves. |
| Statistics.CountsPartition | Datwise.Data/IssueRepository.cs:146-152 | The four severity counts add up to at most the open count. The open and resolved-this-month counts add up to at most the store size. |
| Statistics.GetIssueStatistics | Datwise.Data/IssueRepository.cs:138-154 | The figures satisfy those bounds. An empty store gives all zeros and MinValue. The last issue date is the latest reported date. |
| Statistics.CountOpenAppend | Datwise.Data/IssueRepository.cs:146 | Appending an issue raises the open count by one exactly when it is Open or In Progress. |
| Statistics.CountOpenWithSeverityAppend | Datwise.Data/IssueRepository.cs:147-150 | Appending an issue raises a severity count by one exactly when it is open and of that severity. |
| Statistics.CountResolvedSinceAppend | Datwise.Data/IssueRepository.cs:152 | Appending an issue raises the resolved count by one exactly when it is Resolved with a resolved date on or after the month start. |
| Statistics.LatestReportedDateAppend | Datwise.Data/IssueRepository.cs:151 | Appending an issue makes the last date the later of the old last date and its reported date. |
| Statistics.StatisticsAfterAdd | Datwise.Data/IssueRepository.cs:138-154 | Each of the seven statistics moves by exactly the added issue's contribution. |
| Statistics.ResolvedCountAntitone | Datwise.Data/IssueRepository.cs:152 | A later month start never counts more resolved issues. |
| Repository.RemoveById | Datwise.Data/IssueRepository.cs:120-136 | The store without the issues that carry an id. What it keeps is stated by `Repository.RemoveByIdCounts` and `Repository.RemoveAbsent`. `Repository.RemoveAtIsRemoveById` ties it to the delete. |
| Repository.RemoveByIdCounts | Datwise.Data/IssueRepository.cs:120-136 | Removal by id drops every issue with that id and keeps every copy of the others. |
| Repository.SameIdsSameIndex | Datwise.Data/IssueRepository.cs:35-38 | Two stores whose ids agree position by position find every id at the same position. |
| Repository.ReplaceById | Datwise.Data/IssueRepository.cs:106-118 | The store keeps its length. A lookup of the replaced id finds the new record when that id was stored. Every other lookup finds what it found before. |
| Repository.RemoveAtIsRemoveById | Datwise.Data/IssueRepository.cs:124-128 | With distinct ids, cutting out the issue found by id is removal of that id. |
| Repository.RemoveAbsent | Datwise.Data/IssueRepository.cs:124-126 | Removing an id that is not stored changes nothing. |
| Repository.ReplaceAtIsReplaceById | Datwise.Data/IssueRepository.cs:110 | With distinct ids, overwriting the found issue is replacement of that id. |
| Repository.CutKeepsWellFormed | Datwise.Data/IssueRepository.cs:128 | Removing one issue keeps ids non-zero, distinct and below the next generated id. |
| Repository.CutCounts | Datwise.Data/IssueRepository.cs:128 | Removing the issue at one position removes exactly one copy of it. |
| Repository.DeleteTwiceFindsNothing | Datwise.Data/IssueRepository.cs:120-136 | After a delete the id is not found, and a second delete changes nothing. |
| Repository.IssueRepository.constructor | Datwise.Data/IssueRepository.cs:15-18 | The source wraps whatever database its context holds. The model's constructor stands for a repository over an empty database: it is well formed, and the first id it hands out is 1. |
| Repository.IssueRepository.CreateIssue | Datwise.Data/IssueRepository.cs:98-104 | ReportedDate is set to now. An Id of 0 gets the next generated id. A non-zero Id is kept, and fails as a duplicate key, storing nothing, when that id is already stored. On success the issue is appended, its id is returned and it can be found by that id. The generator moves past an explicit id. The invariant is kept. |
| Repository.IssueRepository.UpdateIssue | Datwise.Data/IssueRepository.cs:106-118 | It returns true exactly when the id is stored, and then the whole record with that id is replaced. Otherwise nothing changes. The invariant is kept. |
| Repository.IssueRepository.DeleteIssue | Datwise.Data/IssueRepository.cs:120-136 | It returns true exactly when the id is stored. The new store is the old one without that id, one issue fewer when it was found. The id is no longer found, and the invariant is kept. |
| Issues.NewIssue | Datwise.Models/Issue.cs:6-37 | `new Issue()` with every property at its initialiser, reported now. `Service.NewIssueIsRefused` states its defaults and how the service treats it. |
| Service.CreateGuard | Datwise.Services/IssueService.cs:38-47 | The check passes exactly when Title, Description and ReportedBy are all non-blank. Otherwise it fails with the message of the first blank field, in source order. |
| Service.IdGuard | Datwise.Services/IssueService.cs:52-66 | The check passes exactly for a positive id. Otherwise it fails with "Invalid issue ID". |
| Service.NewIssueIsRefused | Datwise.Models/Issue.cs:6-37 | A new Issue has Id 0, status "Open", Medium severity and no resolution data. Create refuses it with "Title is required", and update refuses its id 0. |
| Service.IssueService.constructor | Datwise.Services/IssueService.cs:13-16 | The service holds the repository it is given. |
| Service.IssueService.CreateIssue | Datwise.Services/IssueService.cs:38-50 | A failed check returns its error and leaves the repository unchanged. Otherwise the repository's result is passed on. An Id of 0 gets the next generated id. A caller-set Id is kept, or fails as a duplicate key when it is taken. On success the generator moves on as in the repository: one past an Id of 0, and past a caller-set Id at or above it. A failure leaves the store and the generator as they were. |
| Service.IssueService.UpdateIssue | Datwise.Services/IssueService.cs:52-58 | An id of 0 or less is refused with the store unchanged. Otherwise it returns whether the id was stored, replacing the record when it was. |
| Service.IssueService.GetOpenIssues | Datwise.Services/IssueService.cs:18-21 | Forwards to the repository. Its contract is `IssueQueries.GetOpenIssues`'. |
| Service.IssueService.GetIssuesBySeverity | Datwise.Services/IssueService.cs:23-26 | Forwards to the repository. Its contract is `IssueQueries.GetIssuesBySeverity`'. |
| Service.IssueService.GetIssueById | Datwise.Services/IssueService.cs:28-31 | Forwards to the repository's lookup. Its contract is `IssueQueries.FindById`'. |
| Service.IssueService.GetIssues | Datwise.Services/IssueService.cs:33-36 | Forwards to the repository. Its contract is `IssueQueries.GetIssues`', with stability from `IssueQueries.GetIssuesStable`. |
| Service.IssueService.GetIssueStatistics | Datwise.Services/IssueService.cs:68-71 | Forwards to the repository. Its contract is `Statistics.GetIssueStatistics`', with `Statistics.StatisticsAfterAdd` for how it moves. |
| Service.IssueService.DeleteIssue | Datwise.Services/IssueService.cs:60-66 | An id of 0 or less is refused with the store unchanged. Otherwise it returns whether the id was stored, and the store loses that id. |
| ReportForm.CheckText | Datwise.WebForms/Pages/ReportIssue.cshtml.cs:124-189 | A field passes exactly when it is non-blank and within the limit. A blank value gets the required message. A non-blank value over the limit gets the length message. A value of exactly the limit passes. |
| ReportForm.IsValidSeverity | Datwise.WebForms/Pages/ReportIssue.cshtml.cs:194-201 | An exact, case-sensitive match against Low, Medium, High and Critical. `ReportForm.SeverityCheck`, `ReportForm.ValidSeverityIsTrimmed` and `ReportForm.PaddedSeverityRefused` state its meaning. |
| ReportForm.SeverityCheck | Datwise.WebForms/Pages/ReportIssue.cshtml.cs:148-153 | The severity passes exactly when it is one of Low, Medium, High and Critical. Otherwise the message is "Please select a valid severity level". |
| ReportForm.ValidSeverityIsTrimmed | Datwise.WebForms/Pages/ReportIssue.cshtml.cs:61 | Trimming an accepted severity leaves it unchanged. |
| ReportForm.PaddedSeverityRefused | Datwise.WebForms/Pages/ReportIssue.cshtml.cs:194-201 | The match is exact: " High" and "high" are refused. |
| ReportForm.TrimAccepted | Datwise.WebForms/Pages/ReportIssue.cshtml.cs:59-65 | Trimming a value that passed its check gives a non-empty value within the limit, with no white space at either end. |
| ReportForm.BuildPayload | Datwise.WebForms/Pages/ReportIssue.cshtml.cs:57-66 | The anonymous payload: every field trimmed and status "Open". `ReportForm.PayloadWellFormed` and `ReportForm.AcceptedFormPassesCreateGuard` state what it guarantees for an accepted form. |
| ReportForm.PayloadWellFormed | Datwise.WebForms/Pages/ReportIssue.cshtml.cs:56-66 | The payload built from an accepted form has every text field trimmed, non-empty and within its limit. Its severity is the one chosen and its status is "Open". |
| ReportForm.AcceptedFormPassesCreateGuard | Datwise.WebForms/Pages/ReportIssue.cshtml.cs:56-66 | A payload from an accepted form passes the service's create checks. |
| ReportForm.ReportIssueModel.constructor | Datwise.WebForms/Pages/ReportIssue.cshtml.cs:19-24 | A new page carries no field errors. |
| ReportForm.ReportIssueModel.ValidateForm | Datwise.WebForms/Pages/ReportIssue.cshtml.cs:120-192 | It returns true exactly when all six checks pass. Each failing field gets its check's message and every other field error keeps its value. |
| ReportForm.ReportIssueModel.OnPost | Datwise.WebForms/Pages/ReportIssue.cshtml.cs:35-66 | An invalid form produces no payload. A valid one produces the trimmed payload. The field errors are set as `ValidateForm` sets them. |
| ReportForm.HandlePost | Datwise.WebForms/Pages/ReportIssue.cshtml.cs:35-66 | On a fresh page, each field error is exactly its check's result, and the payload exists exactly when the form is accepted. |
| TableSorting.CurrentSort | Datwise.WebForms/wwwroot/js/table-sorting.js:5 | A missing sort parameter reads as "". A present one is used as given. |
| TableSorting.NextSort | Datwise.WebForms/wwwroot/js/table-sorting.js:11-23 | The click rule. `TableSorting.NextSortShape`, `TableSorting.ClickTwice` and `TableSorting.ClickThenApplySorting` state its meaning. |
| TableSorting.IsMarked | Datwise.WebForms/wwwroot/js/table-sorting.js:37-43 | The indicator rule: a header is marked when the current sort is its field, ascending or descending. `TableSorting.ClickedHeaderIsMarked` relates it to the click rule. |
| TableSorting.NextSortShape | Datwise.WebForms/wwwroot/js/table-sorting.js:11-23 | A header without a field does nothing. A click on field f gives `-f` when the table is sorted ascending by f, and f otherwise. |
| TableSorting.ClickTwice | Datwise.WebForms/wwwroot/js/table-sorting.js:15-23 | Two clicks on the same header from its ascending sort return to it. From any other sort, two clicks give ascending, then descending. |
| TableSorting.ClickedHeaderIsMarked | Datwise.WebForms/wwwroot/js/table-sorting.js:15-43 | The sort that the toggle rule produces for a header satisfies the indicator rule's condition for that header. |
| TableSorting.ClickThenApplySorting | Datwise.WebForms/wwwroot/js/table-sorting.js:15-23 | For a non-empty field name that does not start with `-`, the sort a click produces makes the repository order by the header's field. The order is descending exactly when the table was sorted ascending by that field. |

## Left out

- Entity Framework, the database context and `SaveChangesAsync` are not modelled. The store is a sequence of issues and the key generator a counter. Async and `Task` plumbing is gone: every call completes.
- Exceptions from the database are not modelled. `UpdateIssueAsync` and `DeleteIssueAsync` catch every exception and return false. The model returns false only when the id is not stored, which is what a failed EF update or a `FindAsync` miss amounts to.
- Ordering.SortByStable and IssueQueries.GetIssuesStable: the stable tie order matches LINQ to Objects and the tests' in-memory database. The SQLite provider the API uses translates the ordering to SQL `ORDER BY`, which does not guarantee any tie order; the stable order is one admissible outcome.
- Repository.IssueRepository.CreateIssue: a failed save leaves the store unchanged. EF's change tracker keeps the rejected entity in the Added state, so a later save on the same context would try it again; the model has no change tracker.
- Repository.IssueRepository.CreateIssue: ids and the key generator are unbounded integers. In the source, `Issue.Id` is a 32-bit `int`. After a caller-set Id of 2147483647, the model hands out 2147483648 for the next Id of 0, which the source's `Id` cannot hold. What the provider does at that limit is not modelled. The same applies to Service.IssueService.CreateIssue.
- The key generator is a counter that moves past every explicit id. This is what SQLite does for an integer primary key. Other providers' generators are not modelled.
- Repository.IssueRepository.UpdateIssue: an issue whose id is not stored is refused. EF's `Update` with id 0 would insert a new row instead. That path is unreachable through the service, whose check refuses ids of 0 or less.
- `DateTime.UtcNow` and the month start are not computed: they are parameters (`now`, `monthStart`). Dates are tick counts and `DateTime.MinValue` is 0.
- Text.ToLower: it lower-cases ASCII letters only. The culture-sensitive mapping of other letters is not modelled.
- Strings are ordered by code point, as SQLite's default BINARY collation orders them. The in-memory provider of the tests orders them with `Comparer<string>.Default`, which is culture-sensitive ("apple" before "Banana"). That order is not modelled.
- String lengths count Unicode scalar values. .NET's `Length` counts UTF-16 code units, so characters outside the Basic Multilingual Plane count once here and twice in the source.
- The form's `[FromForm]` values are strings. A missing value behaves as "" in every check, as `string.IsNullOrWhiteSpace(null)` does.
- The HTTP call to the API, the JSON serialisation, the base-URL rewrite, logging, `GeneralError`, `SuccessMessage` and the redirect in `OnPostAsync` are not modelled. The model stops at the payload.
- The DOM work of `table-sorting.js` is not modelled: cursor style, text content, font weight and the URL update.
- The read operations of `IssueService` forward to the repository. They are modelled as functions without contracts of their own; the repository functions they call carry the contracts.
- `DatabaseSeeder`, the other pages, the controllers' HTTP status handling and `ExampleService` are not part of this model.
- Concurrency between requests is not modelled: each operation runs alone.
