/** The report form of the web front end
    (Datwise.WebForms/Pages/ReportIssue.cshtml.cs): field validation with
    one error message per field, and the trimmed payload posted to the API
    when every field passes. Form values are strings; a missing value
    behaves as the empty string in every check. */
module ReportForm {
  import opened Wrappers
  import opened Text
  import opened Issues
  import opened Service

  const TitleRequired: string := "Title is required"
  const TitleTooLong: string := "Title cannot exceed 255 characters"
  const DescriptionRequired: string := "Description is required"
  const DescriptionTooLong: string := "Description cannot exceed 2000 characters"
  const DepartmentRequired: string := "Department is required"
  const DepartmentTooLong: string := "Department cannot exceed 100 characters"
  const LocationRequired: string := "Location is required"
  const LocationTooLong: string := "Location cannot exceed 255 characters"
  const ReportedByRequired: string := "Your name is required"
  const ReportedByTooLong: string := "Name cannot exceed 255 characters"
  const SeverityInvalid: string := "Please select a valid severity level"

  const TitleMaxLength: nat := 255
  const DescriptionMaxLength: nat := 2000
  const DepartmentMaxLength: nat := 100
  const LocationMaxLength: nat := 255
  const ReportedByMaxLength: nat := 255

  /** The blank-then-length check used for five of the fields: blank gives
      the required message whatever the length; otherwise a value longer
      than the limit gives the length message; a value of exactly the limit
      passes. */
  function CheckText(value: string, maxLength: nat, requiredMessage: string, tooLongMessage: string): (r: Option<string>)
    ensures r.None? <==> !IsBlank(value) && |value| <= maxLength
    ensures IsBlank(value) ==> r == Some(requiredMessage)
    ensures !IsBlank(value) && |value| > maxLength ==> r == Some(tooLongMessage)
  {
    if IsBlank(value) then Some(requiredMessage)
    else if |value| > maxLength then Some(tooLongMessage)
    else None
  }

  function TitleCheck(title: string): Option<string> {
    CheckText(title, TitleMaxLength, TitleRequired, TitleTooLong)
  }

  function DescriptionCheck(description: string): Option<string> {
    CheckText(description, DescriptionMaxLength, DescriptionRequired, DescriptionTooLong)
  }

  function DepartmentCheck(department: string): Option<string> {
    CheckText(department, DepartmentMaxLength, DepartmentRequired, DepartmentTooLong)
  }

  function LocationCheck(location: string): Option<string> {
    CheckText(location, LocationMaxLength, LocationRequired, LocationTooLong)
  }

  function ReportedByCheck(reportedBy: string): Option<string> {
    CheckText(reportedBy, ReportedByMaxLength, ReportedByRequired, ReportedByTooLong)
  }

  const Severities: set<string> := {"Low", "Medium", "High", "Critical"}

  /** IsValidSeverity: an exact, case-sensitive match. */
  predicate IsValidSeverity(severity: string) {
    severity == "Low" || severity == "Medium" || severity == "High" || severity == "Critical"
  }

  /** The severity check: blank or not one of the four names. The blank
      test adds nothing, since no severity name is blank. */
  function SeverityCheck(severity: string): (r: Option<string>)
    ensures r.None? <==> severity in Severities
    ensures r.Some? ==> r.value == SeverityInvalid
  {
    assert IsValidSeverity(severity) ==> !IsWhiteSpace(severity[0]);
    if IsBlank(severity) || !IsValidSeverity(severity) then Some(SeverityInvalid)
    else None
  }

  /** The four severity names carry no surrounding white space, so trimming
      a valid severity leaves it as it is. */
  lemma ValidSeverityIsTrimmed(severity: string)
    requires severity in Severities
    ensures Trim(severity) == severity
  {
    assert !IsWhiteSpace(severity[0]) && !IsWhiteSpace(severity[|severity| - 1]);
    TrimKeepsTrimmed(severity);
  }

  /** A severity with surrounding white space is refused. */
  lemma PaddedSeverityRefused()
    ensures SeverityCheck(" High").Some? && SeverityCheck("high").Some?
  {
  }

  datatype ReportInput = ReportInput(
    title: string,
    description: string,
    severity: string,
    department: string,
    location: string,
    reportedBy: string)

  /** Every one of the six checks passes. */
  predicate FormAccepts(input: ReportInput) {
    && TitleCheck(input.title).None?
    && DescriptionCheck(input.description).None?
    && SeverityCheck(input.severity).None?
    && DepartmentCheck(input.department).None?
    && LocationCheck(input.location).None?
    && ReportedByCheck(input.reportedBy).None?
  }

  /** The anonymous object serialised and posted to the API. */
  datatype IssuePayload = IssuePayload(
    title: string,
    description: string,
    severity: string,
    status: string,
    reportedBy: string,
    department: string,
    location: string)

  /** Every field trimmed; the status is always "Open". */
  function BuildPayload(input: ReportInput): IssuePayload {
    IssuePayload(
      title := Trim(input.title),
      description := Trim(input.description),
      severity := Trim(input.severity),
      status := "Open",
      reportedBy := Trim(input.reportedBy),
      department := Trim(input.department),
      location := Trim(input.location))
  }

  /** Trimmed, not blank and within the limit. */
  predicate WellTrimmed(s: string, maxLength: nat) {
    && s != []
    && !IsWhiteSpace(s[0]) && !IsWhiteSpace(s[|s| - 1])
    && |s| <= maxLength
  }

  lemma TrimAccepted(s: string, maxLength: nat)
    requires !IsBlank(s) && |s| <= maxLength
    ensures WellTrimmed(Trim(s), maxLength)
  {
    TrimProperties(s);
  }

  /** A payload built from an accepted form has every text field non-empty,
      free of surrounding white space and within its limit; its severity
      is the one chosen and its status is "Open". */
  lemma PayloadWellFormed(input: ReportInput)
    requires FormAccepts(input)
    ensures var p := BuildPayload(input);
            && WellTrimmed(p.title, TitleMaxLength)
            && WellTrimmed(p.description, DescriptionMaxLength)
            && WellTrimmed(p.department, DepartmentMaxLength)
            && WellTrimmed(p.location, LocationMaxLength)
            && WellTrimmed(p.reportedBy, ReportedByMaxLength)
            && p.severity == input.severity && p.severity in Severities
            && p.status == "Open"
  {
    TrimAccepted(input.title, TitleMaxLength);
    TrimAccepted(input.description, DescriptionMaxLength);
    TrimAccepted(input.department, DepartmentMaxLength);
    TrimAccepted(input.location, LocationMaxLength);
    TrimAccepted(input.reportedBy, ReportedByMaxLength);
    ValidSeverityIsTrimmed(input.severity);
  }

  /** The Issue the API binds from the payload: the fields the payload
      does not carry keep their initialisers. */
  function PayloadIssue(p: IssuePayload, now: Ticks): Issue {
    NewIssue(now).(
      title := p.title,
      description := p.description,
      severity := p.severity,
      status := p.status,
      reportedBy := p.reportedBy,
      department := p.department,
      location := p.location)
  }

  /** What the form accepts, the service's create check accepts too. */
  lemma AcceptedFormPassesCreateGuard(input: ReportInput, now: Ticks)
    requires FormAccepts(input)
    ensures CreateGuard(PayloadIssue(BuildPayload(input), now)).None?
  {
    PayloadWellFormed(input);
  }

  class ReportIssueModel {
    var titleError: Option<string>
    var descriptionError: Option<string>
    var severityError: Option<string>
    var departmentError: Option<string>
    var locationError: Option<string>
    var reportedByError: Option<string>

    constructor ()
      ensures titleError.None? && descriptionError.None? && severityError.None?
      ensures departmentError.None? && locationError.None? && reportedByError.None?
    {
      titleError, descriptionError, severityError := None, None, None;
      departmentError, locationError, reportedByError := None, None, None;
    }

    /** ValidateForm: runs all six checks, sets the error of each failing
        field and leaves the others as they were; true iff none failed. */
    method ValidateForm(input: ReportInput) returns (isValid: bool)
      modifies this
      ensures isValid <==> FormAccepts(input)
      ensures titleError == if TitleCheck(input.title).Some? then TitleCheck(input.title) else old(titleError)
      ensures descriptionError ==
                if DescriptionCheck(input.description).Some? then DescriptionCheck(input.description)
                else old(descriptionError)
      ensures severityError ==
                if SeverityCheck(input.severity).Some? then SeverityCheck(input.severity) else old(severityError)
      ensures departmentError ==
                if DepartmentCheck(input.department).Some? then DepartmentCheck(input.department)
                else old(departmentError)
      ensures locationError ==
                if LocationCheck(input.location).Some? then LocationCheck(input.location) else old(locationError)
      ensures reportedByError ==
                if ReportedByCheck(input.reportedBy).Some? then ReportedByCheck(input.reportedBy)
                else old(reportedByError)
    {
      isValid := true;

      var title := TitleCheck(input.title);
      if title.Some? {
        titleError := title;
        isValid := false;
      }
      assert isValid <==> title.None?;

      var description := DescriptionCheck(input.description);
      if description.Some? {
        descriptionError := description;
        isValid := false;
      }
      assert isValid <==> title.None? && description.None?;

      var severity := SeverityCheck(input.severity);
      if severity.Some? {
        severityError := severity;
        isValid := false;
      }
      assert isValid <==> title.None? && description.None? && severity.None?;

      var department := DepartmentCheck(input.department);
      if department.Some? {
        departmentError := department;
        isValid := false;
      }
      assert isValid <==> title.None? && description.None? && severity.None? && department.None?;

      var location := LocationCheck(input.location);
      if location.Some? {
        locationError := location;
        isValid := false;
      }
      assert isValid <==> title.None? && description.None? && severity.None? && department.None?
                          && location.None?;

      var reportedBy := ReportedByCheck(input.reportedBy);
      if reportedBy.Some? {
        reportedByError := reportedBy;
        isValid := false;
      }
      assert isValid <==> title.None? && description.None? && severity.None? && department.None?
                          && location.None? && reportedBy.None?;
    }

    /** The validation part of OnPostAsync: an invalid form builds no
        payload (so nothing is sent); a valid one yields the trimmed
        payload. */
    method OnPost(input: ReportInput) returns (payload: Option<IssuePayload>)
      modifies this
      ensures payload == if FormAccepts(input) then Some(BuildPayload(input)) else None
      ensures titleError == if TitleCheck(input.title).Some? then TitleCheck(input.title) else old(titleError)
      ensures descriptionError ==
                if DescriptionCheck(input.description).Some? then DescriptionCheck(input.description)
                else old(descriptionError)
      ensures severityError ==
                if SeverityCheck(input.severity).Some? then SeverityCheck(input.severity) else old(severityError)
      ensures departmentError ==
                if DepartmentCheck(input.department).Some? then DepartmentCheck(input.department)
                else old(departmentError)
      ensures locationError ==
                if LocationCheck(input.location).Some? then LocationCheck(input.location) else old(locationError)
      ensures reportedByError ==
                if ReportedByCheck(input.reportedBy).Some? then ReportedByCheck(input.reportedBy)
                else old(reportedByError)
    {
      var isValid := ValidateForm(input);
      if !isValid {
        return None;
      }
      payload := Some(BuildPayload(input));
    }
  }

  /** One form post as the framework runs it: a new page model per request,
      then OnPostAsync. Exactly the failing fields carry a message. */
  method HandlePost(input: ReportInput) returns (page: ReportIssueModel, payload: Option<IssuePayload>)
    ensures fresh(page)
    ensures payload == if FormAccepts(input) then Some(BuildPayload(input)) else None
    ensures page.titleError == TitleCheck(input.title)
    ensures page.descriptionError == DescriptionCheck(input.description)
    ensures page.severityError == SeverityCheck(input.severity)
    ensures page.departmentError == DepartmentCheck(input.department)
    ensures page.locationError == LocationCheck(input.location)
    ensures page.reportedByError == ReportedByCheck(input.reportedBy)
  {
    page := new ReportIssueModel();
    payload := page.OnPost(input);
  }
}
