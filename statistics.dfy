/** IssueRepository.GetIssueStatisticsAsync and the IssueStatistics record
    it fills (Datwise.Contracts/IssueStatistics.cs). The start of the
    current month is a parameter. */
module Statistics {
  import opened Issues

  datatype IssueStatistics = IssueStatistics(
    totalOpenIssues: nat,
    criticalIssuesCount: nat,
    highSeverityCount: nat,
    mediumSeverityCount: nat,
    lowSeverityCount: nat,
    lastIssueDate: Ticks,
    resolvedThisMonth: nat)

  predicate IsOpenOrInProgress(x: Issue) {
    x.status == "Open" || x.status == "In Progress"
  }

  predicate ResolvedSince(x: Issue, monthStart: Ticks) {
    x.status == "Resolved" && x.resolvedDate.Some? && x.resolvedDate.value >= monthStart
  }

  function CountOpen(s: seq<Issue>): nat {
    if s == [] then 0
    else (if IsOpenOrInProgress(s[0]) then 1 else 0) + CountOpen(s[1..])
  }

  function CountOpenWithSeverity(s: seq<Issue>, severity: string): nat {
    if s == [] then 0
    else (if s[0].severity == severity && IsOpenOrInProgress(s[0]) then 1 else 0)
         + CountOpenWithSeverity(s[1..], severity)
  }

  function CountResolvedSince(s: seq<Issue>, monthStart: Ticks): nat {
    if s == [] then 0
    else (if ResolvedSince(s[0], monthStart) then 1 else 0) + CountResolvedSince(s[1..], monthStart)
  }

  /** issues.Any() ? issues.Max(i => i.ReportedDate) : DateTime.MinValue */
  function LatestReportedDate(s: seq<Issue>): (r: Ticks)
    ensures s == [] ==> r == MinValue
    ensures s != [] ==> exists i :: 0 <= i < |s| && s[i].reportedDate == r
    ensures forall i :: 0 <= i < |s| ==> s[i].reportedDate <= r
  {
    if s == [] then MinValue
    else
      var rest := LatestReportedDate(s[1..]);
      if s[0].reportedDate >= rest then s[0].reportedDate else rest
  }

  /** The four severity counts are disjoint parts of the open count;
      resolved issues are never open, so the resolved count and the open
      count together never exceed the store. */
  lemma {:induction false} CountsPartition(s: seq<Issue>, monthStart: Ticks)
    ensures CountOpenWithSeverity(s, "Critical") + CountOpenWithSeverity(s, "High")
            + CountOpenWithSeverity(s, "Medium") + CountOpenWithSeverity(s, "Low") <= CountOpen(s)
    ensures CountOpen(s) + CountResolvedSince(s, monthStart) <= |s|
  {
    if s != [] {
      CountsPartition(s[1..], monthStart);
    }
  }

  /** GetIssueStatisticsAsync over the store's issues. */
  function GetIssueStatistics(issues: seq<Issue>, monthStart: Ticks): (r: IssueStatistics)
    ensures r.criticalIssuesCount + r.highSeverityCount + r.mediumSeverityCount + r.lowSeverityCount
            <= r.totalOpenIssues
    ensures r.totalOpenIssues + r.resolvedThisMonth <= |issues|
    ensures issues == [] ==> r == IssueStatistics(0, 0, 0, 0, 0, MinValue, 0)
    ensures issues != [] ==> exists i :: 0 <= i < |issues| && issues[i].reportedDate == r.lastIssueDate
    ensures forall i :: 0 <= i < |issues| ==> issues[i].reportedDate <= r.lastIssueDate
  {
    CountsPartition(issues, monthStart);
    IssueStatistics(
      totalOpenIssues := CountOpen(issues),
      criticalIssuesCount := CountOpenWithSeverity(issues, "Critical"),
      highSeverityCount := CountOpenWithSeverity(issues, "High"),
      mediumSeverityCount := CountOpenWithSeverity(issues, "Medium"),
      lowSeverityCount := CountOpenWithSeverity(issues, "Low"),
      lastIssueDate := LatestReportedDate(issues),
      resolvedThisMonth := CountResolvedSince(issues, monthStart))
  }

  lemma {:induction false} CountOpenAppend(s: seq<Issue>, x: Issue)
    ensures CountOpen(s + [x]) == CountOpen(s) + (if IsOpenOrInProgress(x) then 1 else 0)
  {
    if s != [] {
      CountOpenAppend(s[1..], x);
      assert (s + [x])[1..] == s[1..] + [x];
    }
  }

  lemma {:induction false} CountOpenWithSeverityAppend(s: seq<Issue>, x: Issue, severity: string)
    ensures CountOpenWithSeverity(s + [x], severity)
            == CountOpenWithSeverity(s, severity) + (if x.severity == severity && IsOpenOrInProgress(x) then 1 else 0)
  {
    if s != [] {
      CountOpenWithSeverityAppend(s[1..], x, severity);
      assert (s + [x])[1..] == s[1..] + [x];
    }
  }

  lemma {:induction false} CountResolvedSinceAppend(s: seq<Issue>, x: Issue, monthStart: Ticks)
    ensures CountResolvedSince(s + [x], monthStart)
            == CountResolvedSince(s, monthStart) + (if ResolvedSince(x, monthStart) then 1 else 0)
  {
    if s != [] {
      CountResolvedSinceAppend(s[1..], x, monthStart);
      assert (s + [x])[1..] == s[1..] + [x];
    }
  }

  lemma LatestReportedDateAppend(s: seq<Issue>, x: Issue)
    ensures LatestReportedDate(s + [x])
            == if s == [] || x.reportedDate > LatestReportedDate(s) then x.reportedDate else LatestReportedDate(s)
  {
    var t := s + [x];
    var latest := LatestReportedDate(t);
    assert t[|s|] == x;
    var j :| 0 <= j < |t| && t[j].reportedDate == latest;
    if s != [] {
      var i :| 0 <= i < |s| && s[i].reportedDate == LatestReportedDate(s);
      assert t[i] == s[i];
      if j < |s| {
        assert t[j] == s[j];
      }
    }
  }

  /** Adding one issue to the store moves the statistics by exactly that
      issue: each count grows by one when the issue falls in it, and the
      last date becomes the later of the two. */
  lemma StatisticsAfterAdd(s: seq<Issue>, x: Issue, monthStart: Ticks)
    ensures var before, after := GetIssueStatistics(s, monthStart), GetIssueStatistics(s + [x], monthStart);
            && after.totalOpenIssues == before.totalOpenIssues + (if IsOpenOrInProgress(x) then 1 else 0)
            && after.criticalIssuesCount
               == before.criticalIssuesCount + (if IsOpenOrInProgress(x) && x.severity == "Critical" then 1 else 0)
            && after.highSeverityCount
               == before.highSeverityCount + (if IsOpenOrInProgress(x) && x.severity == "High" then 1 else 0)
            && after.mediumSeverityCount
               == before.mediumSeverityCount + (if IsOpenOrInProgress(x) && x.severity == "Medium" then 1 else 0)
            && after.lowSeverityCount
               == before.lowSeverityCount + (if IsOpenOrInProgress(x) && x.severity == "Low" then 1 else 0)
            && after.resolvedThisMonth == before.resolvedThisMonth + (if ResolvedSince(x, monthStart) then 1 else 0)
            && after.lastIssueDate == if s == [] || x.reportedDate > before.lastIssueDate then x.reportedDate
                                      else before.lastIssueDate
  {
    CountOpenAppend(s, x);
    CountOpenWithSeverityAppend(s, x, "Critical");
    CountOpenWithSeverityAppend(s, x, "High");
    CountOpenWithSeverityAppend(s, x, "Medium");
    CountOpenWithSeverityAppend(s, x, "Low");
    CountResolvedSinceAppend(s, x, monthStart);
    LatestReportedDateAppend(s, x);
  }

  /** A later month start never counts more resolved issues. */
  lemma {:induction false} ResolvedCountAntitone(s: seq<Issue>, early: Ticks, late: Ticks)
    requires early <= late
    ensures CountResolvedSince(s, late) <= CountResolvedSince(s, early)
  {
    if s != [] {
      ResolvedCountAntitone(s[1..], early, late);
    }
  }
}
