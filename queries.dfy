/** The read side of IssueRepository (Datwise.Data/IssueRepository.cs):
    the LINQ pipelines of GetIssuesAsync, ApplySorting, GetAllIssuesAsync,
    the convenience filters built on GetIssuesAsync, and the lookup by id.
    Each takes the store's contents as a sequence. */
module IssueQueries {
  import opened Wrappers
  import opened Text
  import opened Issues
  import opened Ordering

  /** The field names ApplySorting recognises after lower-casing. */
  const SortFieldNames: set<string> :=
    {"id", "title", "severity", "status", "department", "location", "reportedby", "reporteddate", "date"}

  /** The switch of ApplySorting on the lower-cased field name. */
  function SortOrderNamed(name: string, isDescending: bool): (o: SortOrder)
    ensures name == "id" ==> o == ByField(ById, isDescending)
    ensures name == "title" ==> o == ByField(ByTitle, isDescending)
    ensures name == "severity" ==> o == ByField(BySeverity, isDescending)
    ensures name == "status" ==> o == ByField(ByStatus, isDescending)
    ensures name == "department" ==> o == ByField(ByDepartment, isDescending)
    ensures name == "location" ==> o == ByField(ByLocation, isDescending)
    ensures name == "reportedby" ==> o == ByField(ByReportedBy, isDescending)
    ensures name == "reporteddate" || name == "date" ==> o == ByField(ByReportedDate, isDescending)
    ensures name !in SortFieldNames ==> o == ByField(ByReportedDate, true)
  {
    if name == "id" then ByField(ById, isDescending)
    else if name == "title" then ByField(ByTitle, isDescending)
    else if name == "severity" then ByField(BySeverity, isDescending)
    else if name == "status" then ByField(ByStatus, isDescending)
    else if name == "department" then ByField(ByDepartment, isDescending)
    else if name == "location" then ByField(ByLocation, isDescending)
    else if name == "reportedby" then ByField(ByReportedBy, isDescending)
    else if name == "reporteddate" then ByField(ByReportedDate, isDescending)
    else if name == "date" then ByField(ByReportedDate, isDescending)
    else ByField(ByReportedDate, true)
  }

  /** ApplySorting: drops every leading '-', lower-cases the rest and picks
      the key; descending when sortBy starts with '-' or the flag is set.
      An unknown name sorts by ReportedDate, newest first, whatever the
      direction asked for. */
  function ApplySorting(sortBy: string, descending: bool): (o: SortOrder)
    ensures var name, d := ToLower(TrimStartChar(sortBy, '-')), StartsWith(sortBy, '-') || descending;
            && (name == "id" ==> o == ByField(ById, d))
            && (name == "title" ==> o == ByField(ByTitle, d))
            && (name == "severity" ==> o == ByField(BySeverity, d))
            && (name == "status" ==> o == ByField(ByStatus, d))
            && (name == "department" ==> o == ByField(ByDepartment, d))
            && (name == "location" ==> o == ByField(ByLocation, d))
            && (name == "reportedby" ==> o == ByField(ByReportedBy, d))
            && (name == "reporteddate" || name == "date" ==> o == ByField(ByReportedDate, d))
            && (name !in SortFieldNames ==> o == ByField(ByReportedDate, true))
  {
    SortOrderNamed(ToLower(TrimStartChar(sortBy, '-')), StartsWith(sortBy, '-') || descending)
  }

  /** The order GetIssuesAsync applies: the severity-rank default for a
      null or blank sortBy, ApplySorting otherwise. */
  function SortOrderFor(sortBy: Option<string>, sortDescending: bool): SortOrder {
    if IsNullOrWhiteSpace(sortBy) then SeverityRankThenNewest
    else ApplySorting(sortBy.value, sortDescending)
  }

  /** One filter of GetIssuesAsync: a null or blank parameter keeps every
      issue, otherwise the field must equal the whole parameter. */
  predicate PassesFilter(filter: Option<string>, value: string) {
    IsNullOrWhiteSpace(filter) || value == filter.value
  }

  /** Both filters, combined with AND. */
  predicate Selected(x: Issue, status: Option<string>, severity: Option<string>) {
    PassesFilter(status, x.status) && PassesFilter(severity, x.severity)
  }

  /** The two Where clauses, in store order. */
  function Where(s: seq<Issue>, status: Option<string>, severity: Option<string>): seq<Issue> {
    if s == [] then []
    else (if Selected(s[0], status, severity) then [s[0]] else []) + Where(s[1..], status, severity)
  }

  /** The filters keep the selected issues, each as often as it occurs, and
      nothing else. */
  lemma {:induction false} WhereCounts(s: seq<Issue>, status: Option<string>, severity: Option<string>)
    ensures forall x :: multiset(Where(s, status, severity))[x] == if Selected(x, status, severity) then multiset(s)[x] else 0
  {
    if s != [] {
      WhereCounts(s[1..], status, severity);
      assert s == [s[0]] + s[1..];
    }
  }

  /** GetIssuesAsync: a permutation of the selected issues, ordered as
      SortOrderFor says. */
  function GetIssues(issues: seq<Issue>, status: Option<string>, severity: Option<string>,
                     sortBy: Option<string>, sortDescending: bool): (r: seq<Issue>)
    ensures forall x :: multiset(r)[x] == if Selected(x, status, severity) then multiset(issues)[x] else 0
    ensures SortedBy(SortOrderFor(sortBy, sortDescending), r)
  {
    WhereCounts(issues, status, severity);
    SortBy(SortOrderFor(sortBy, sortDescending), Where(issues, status, severity))
  }

  /** Taking a tie group and filtering commute. */
  lemma {:induction false} BandOfWhere(o: SortOrder, k: Issue, s: seq<Issue>,
                                       status: Option<string>, severity: Option<string>)
    ensures Band(o, k, Where(s, status, severity)) == Where(Band(o, k, s), status, severity)
  {
    if s != [] {
      BandOfWhere(o, k, s[1..], status, severity);
      var both: seq<Issue> := if Tied(o, s[0], k) && Selected(s[0], status, severity) then [s[0]] else [];
      var w := Where(s, status, severity);
      if Selected(s[0], status, severity) {
        assert w[0] == s[0] && w[1..] == Where(s[1..], status, severity);
      } else {
        assert w == Where(s[1..], status, severity);
      }
      assert Band(o, k, w) == both + Band(o, k, Where(s[1..], status, severity));
      var b := Band(o, k, s);
      if Tied(o, s[0], k) {
        assert b[0] == s[0] && b[1..] == Band(o, k, s[1..]);
      } else {
        assert b == Band(o, k, s[1..]);
      }
      assert Where(b, status, severity) == both + Where(Band(o, k, s[1..]), status, severity);
    }
  }

  /** Issues with equal sort keys come out of GetIssuesAsync in store order:
      each tie group of the result is the store's tie group, filtered. */
  lemma GetIssuesStable(issues: seq<Issue>, status: Option<string>, severity: Option<string>,
                        sortBy: Option<string>, sortDescending: bool, k: Issue)
    ensures var o := SortOrderFor(sortBy, sortDescending);
            Band(o, k, GetIssues(issues, status, severity, sortBy, sortDescending))
            == Where(Band(o, k, issues), status, severity)
  {
    var o := SortOrderFor(sortBy, sortDescending);
    SortByStable(o, k, Where(issues, status, severity));
    BandOfWhere(o, k, issues, status, severity);
  }

  /** The default order as written: OrderByDescending on the rank puts every
      Low or unrecognised severity before every Critical one. */
  lemma DefaultOrderPutsCriticalLast(issues: seq<Issue>, status: Option<string>, severity: Option<string>,
                                     sortBy: Option<string>, sortDescending: bool, i: nat, j: nat)
    requires IsNullOrWhiteSpace(sortBy)
    requires var r := GetIssues(issues, status, severity, sortBy, sortDescending);
             i < |r| && j < |r| && r[i].severity == "Critical" && r[j].severity != "Critical"
    ensures j < i
  {
  }

  /** The bands of the default order, by severity name: after a Critical
      issue only Critical ones follow, after a High one only High or
      Critical, after a Medium one only Medium, High or Critical. Low and
      unrecognised severities therefore come first. */
  lemma DefaultOrderBands(issues: seq<Issue>, status: Option<string>, severity: Option<string>,
                          sortBy: Option<string>, sortDescending: bool, i: nat, j: nat)
    requires IsNullOrWhiteSpace(sortBy)
    requires i < j < |GetIssues(issues, status, severity, sortBy, sortDescending)|
    ensures var r := GetIssues(issues, status, severity, sortBy, sortDescending);
            && (r[i].severity == "Critical" ==> r[j].severity == "Critical")
            && (r[i].severity == "High" ==> r[j].severity == "High" || r[j].severity == "Critical")
            && (r[i].severity == "Medium" ==>
                  r[j].severity == "Medium" || r[j].severity == "High" || r[j].severity == "Critical")
  {
  }

  /** Filters compare the whole parameter: "Open,In Progress" keeps only
      issues whose status is literally that string, so neither an "Open" nor
      an "In Progress" issue is returned. */
  lemma CommaSeparatedStatusIsOneValue(issues: seq<Issue>, sortBy: Option<string>, sortDescending: bool, x: Issue)
    requires x in GetIssues(issues, Some("Open,In Progress"), None, sortBy, sortDescending)
    ensures x.status == "Open,In Progress"
  {
    var r := GetIssues(issues, Some("Open,In Progress"), None, sortBy, sortDescending);
    assert multiset(r)[x] > 0;
    assert !IsWhiteSpace("Open,In Progress"[0]);
  }

  /** GetOpenIssuesAsync: issues with status exactly "Open"; "In Progress"
      ones are not included. */
  function GetOpenIssues(issues: seq<Issue>): (r: seq<Issue>)
    ensures forall x :: multiset(r)[x] == if x.status == "Open" then multiset(issues)[x] else 0
    ensures SortedBy(SeverityRankThenNewest, r)
  {
    assert !IsWhiteSpace("Open"[0]);
    GetIssues(issues, Some("Open"), None, None, false)
  }

  /** GetIssuesBySeverityAsync: open issues of the given severity (all open
      issues when the severity is blank), in the default order. */
  function GetIssuesBySeverity(issues: seq<Issue>, severity: string): (r: seq<Issue>)
    ensures forall x :: multiset(r)[x] ==
              if x.status == "Open" && (IsBlank(severity) || x.severity == severity) then multiset(issues)[x] else 0
    ensures SortedBy(SeverityRankThenNewest, r)
  {
    assert !IsWhiteSpace("Open"[0]);
    GetIssues(issues, Some("Open"), Some(severity), None, false)
  }

  /** GetIssuesByStatusAsync: issues of the given status (all issues when it
      is blank), in the default order. */
  function GetIssuesByStatus(issues: seq<Issue>, status: string): (r: seq<Issue>)
    ensures forall x :: multiset(r)[x] == if IsBlank(status) || x.status == status then multiset(issues)[x] else 0
    ensures SortedBy(SeverityRankThenNewest, r)
  {
    GetIssues(issues, Some(status), None, None, false)
  }

  /** GetAllIssuesAsync: every issue, newest first. */
  function GetAllIssues(issues: seq<Issue>): (r: seq<Issue>)
    ensures multiset(r) == multiset(issues)
    ensures SortedBy(ByField(ByReportedDate, true), r)
  {
    SortBy(ByField(ByReportedDate, true), issues)
  }

  lemma {:induction false} WhereWithoutFilters(s: seq<Issue>)
    ensures Where(s, None, None) == s
  {
    if s != [] {
      WhereWithoutFilters(s[1..]);
      assert s == [s[0]] + s[1..];
    }
  }

  /** GetAllIssuesAsync returns exactly what GetIssuesAsync returns without
      filters and with an unrecognised sort field. */
  lemma GetAllIssuesIsUnknownSort(issues: seq<Issue>, sortBy: string, sortDescending: bool)
    requires !IsBlank(sortBy) && ToLower(TrimStartChar(sortBy, '-')) !in SortFieldNames
    ensures GetAllIssues(issues) == GetIssues(issues, None, None, Some(sortBy), sortDescending)
  {
    assert SortOrderFor(Some(sortBy), sortDescending) == ByField(ByReportedDate, true);
    WhereWithoutFilters(issues);
  }

  /** ApplySorting looks at nothing but the lower-cased field name and the
      direction. */
  lemma ApplySortingCongruent(a: string, aDescending: bool, b: string, bDescending: bool)
    requires ToLower(TrimStartChar(a, '-')) == ToLower(TrimStartChar(b, '-'))
    requires StartsWith(a, '-') || aDescending <==> StartsWith(b, '-') || bDescending
    ensures ApplySorting(a, aDescending) == ApplySorting(b, bDescending)
  {
  }

  /** Every leading '-' is dropped and one of them suffices for descending:
      "-f" and "--f" both sort by f, descending. */
  lemma ApplySortingLeadingDash(s: string, descending: bool)
    ensures ApplySorting("-" + s, descending) == ApplySorting(TrimStartChar(s, '-'), true)
  {
    var d := "-" + s;
    var t := TrimStartChar(s, '-');
    assert d[1..] == s;
    TrimStartDashOfDashed(d);
    assert TrimStartChar(t, '-') == t;
    ApplySortingCongruent(d, descending, t, true);
  }

  lemma {:induction false} ToLowerTrimStartDash(s: string)
    ensures ToLower(TrimStartChar(s, '-')) == TrimStartChar(ToLower(s), '-')
    decreases |s|
  {
    ToLowerStartsWithDash(s);
    if StartsWith(s, '-') {
      ToLowerTrimStartDash(s[1..]);
      TrimStartDashOfDashed(s);
      TrimStartDashOfDashed(ToLower(s));
    }
  }

  /** The field name is matched case-insensitively (ASCII). */
  lemma ApplySortingIgnoresCase(sortBy: string, descending: bool)
    ensures ApplySorting(ToLower(sortBy), descending) == ApplySorting(sortBy, descending)
  {
    ToLowerTrimStartDash(sortBy);
    ToLowerTrimStartDash(ToLower(sortBy));
    ToLowerIdempotent(sortBy);
    ToLowerIdempotent(TrimStartChar(sortBy, '-'));
    assert StartsWith(ToLower(sortBy), '-') == StartsWith(sortBy, '-');
    ApplySortingCongruent(ToLower(sortBy), descending, sortBy, descending);
  }

  /** "date" is an alias of "reportedDate". */
  lemma DateAliasesReportedDate(descending: bool)
    ensures ApplySorting("date", descending) == ApplySorting("reportedDate", descending) == ByField(ByReportedDate, descending)
  {
    assert ToLower("reportedDate") == "reporteddate";
    assert ToLower("date") == "date";
  }

  /** "severity" names the BySeverity key. */
  lemma SeverityNameSortsBySeverity()
    ensures SortOrderFor(Some("severity"), false) == ByField(BySeverity, false)
  {
    assert TrimStartChar("severity", '-') == "severity";
    assert ToLower("severity") == "severity";
    assert !IsWhiteSpace("severity"[0]);
  }

  /** Sorting by "severity" compares the names by code point, not by priority:
      ascending, a High issue never comes before a Critical one, nor a Low
      issue before a High one. */
  lemma SeveritySortIsAlphabetical(issues: seq<Issue>, status: Option<string>, severity: Option<string>,
                                   i: nat, j: nat)
    requires i < j < |GetIssues(issues, status, severity, Some("severity"), false)|
    ensures var r := GetIssues(issues, status, severity, Some("severity"), false);
            && (r[i].severity == "High" ==> r[j].severity != "Critical")
            && (r[i].severity == "Low" ==> r[j].severity != "High")
  {
    var r := GetIssues(issues, status, severity, Some("severity"), false);
    SeverityNameSortsBySeverity();
    AscendingSeverityIsAlphabetical(r, i, j);
  }

  /** The API controller's own parsing (IssuesController.GetIssues): when
      the non-blank sort starts with '-', it strips that one '-' and sets
      the descending flag. */
  function ControllerSortArguments(sort: Option<string>): (Option<string>, bool) {
    if !IsNullOrWhiteSpace(sort) && StartsWith(sort.value, '-') then (Some(sort.value[1..]), true)
    else (sort, false)
  }

  /** The controller's strip followed by ApplySorting orders exactly as
      ApplySorting alone would, unless the sort is '-' followed by
      nothing but white space. */
  lemma ControllerSortAgrees(sort: Option<string>)
    requires !(sort.Some? && StartsWith(sort.value, '-') && IsBlank(sort.value[1..]))
    ensures var (sortBy, descending) := ControllerSortArguments(sort);
            SortOrderFor(sortBy, descending) == SortOrderFor(sort, false)
  {
    if !IsNullOrWhiteSpace(sort) && StartsWith(sort.value, '-') {
      var s := sort.value;
      var rest := s[1..];
      assert ControllerSortArguments(sort) == (Some(rest), true);
      assert SortOrderFor(Some(rest), true) == ApplySorting(rest, true);
      assert SortOrderFor(sort, false) == ApplySorting(s, false);
      StrippedDashAgrees(s);
    }
  }

  lemma StrippedDashAgrees(s: string)
    requires StartsWith(s, '-')
    ensures ApplySorting(s[1..], true) == ApplySorting(s, false)
  {
    TrimStartDashOfDashed(s);
    ApplySortingCongruent(s, false, s[1..], true);
  }

  /** The exception: "-" followed by nothing but white space reaches the
      repository as a blank sortBy, which selects the severity default,
      whereas ApplySorting on the raw value finds no field name and falls
      back to newest first. */
  lemma ControllerLoneDashDiverges(s: string)
    requires StartsWith(s, '-') && IsBlank(s[1..])
    ensures var (sortBy, descending) := ControllerSortArguments(Some(s));
            SortOrderFor(sortBy, descending) == SeverityRankThenNewest
    ensures SortOrderFor(Some(s), false) == ByField(ByReportedDate, true)
  {
    assert !IsWhiteSpace(s[0]);
    BlankAfterDashIsUnknownName(s);
    assert ControllerSortArguments(Some(s)) == (Some(s[1..]), true);
  }

  /** Stripping the dashes of "-" followed by white space leaves a name
      that is none of the field names. */
  lemma BlankAfterDashIsUnknownName(s: string)
    requires StartsWith(s, '-') && IsBlank(s[1..])
    ensures ToLower(TrimStartChar(s, '-')) !in SortFieldNames
  {
    var rest := s[1..];
    TrimStartDashOfDashed(s);
    if rest != [] {
      assert IsWhiteSpace(rest[0]);
    }
    assert TrimStartChar(s, '-') == rest;
    var name := ToLower(rest);
    FieldNamesStartWithLetter();
    if name != [] {
      assert name[0] == ToLowerChar(rest[0]) == rest[0];
      assert !('a' <= name[0] <= 'z');
    }
  }

  /** Every accepted field name starts with a lower-case ASCII letter. */
  lemma FieldNamesStartWithLetter()
    ensures forall n :: n in SortFieldNames ==> n != [] && 'a' <= n[0] <= 'z'
  {
  }

  /** The position of the issue with the given id, if any. */
  function IndexOfId(s: seq<Issue>, id: int): (r: Option<nat>)
    ensures r.Some? ==> r.value < |s| && s[r.value].id == id
    ensures r.None? ==> forall i :: 0 <= i < |s| ==> s[i].id != id
  {
    if s == [] then None
    else if s[0].id == id then Some(0)
    else match IndexOfId(s[1..], id)
      case None => None
      case Some(i) => Some(i + 1)
  }

  /** GetIssueByIdAsync (FindAsync): the issue with that id, or none when
      the store has no such issue. */
  function FindById(issues: seq<Issue>, id: int): (r: Option<Issue>)
    ensures r.Some? ==> r.value in issues && r.value.id == id
    ensures r.None? <==> forall x :: x in issues ==> x.id != id
  {
    match IndexOfId(issues, id)
    case None => None
    case Some(i) => Some(issues[i])
  }
}
