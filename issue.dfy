/** The Issue record of Datwise.Models/Issue.cs. Severity and Status are
    free strings, as in the source; dates are DateTime ticks. */
module Issues {
  import opened Wrappers

  /** A DateTime as its tick count. */
  type Ticks = nat

  /** DateTime.MinValue. */
  const MinValue: Ticks := 0

  datatype Issue = Issue(
    id: int,
    title: string,
    description: string,
    severity: string,
    status: string,
    reportedDate: Ticks,
    reportedBy: string,
    resolvedDate: Option<Ticks>,
    resolvedBy: Option<string>,
    resolutionNotes: Option<string>,
    department: string,
    location: string)

  /** `new Issue()`: every property at its initialiser; the reported date
      is the construction time, which the caller supplies. */
  function NewIssue(now: Ticks): Issue {
    Issue(
      id := 0,
      title := "",
      description := "",
      severity := "Medium",
      status := "Open",
      reportedDate := now,
      reportedBy := "",
      resolvedDate := None,
      resolvedBy := None,
      resolutionNotes := None,
      department := "",
      location := "")
  }
}
