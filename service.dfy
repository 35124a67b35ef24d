/** IssueService (Datwise.Services/IssueService.cs): argument checks in
    front of the repository. A thrown ArgumentException becomes a Failure
    carrying its message; a failed check never reaches the store. */
module Service {
  import opened Wrappers
  import opened Text
  import opened Issues
  import opened IssueQueries
  import opened Statistics
  import opened Repository

  /** A thrown ArgumentException, or the repository's failed save, which
      the service lets through. */
  datatype ServiceError =
    | ArgumentError(message: string)
    | SaveFailed(cause: CreateError)

  /** The checks of CreateIssueAsync, in source order: the first blank field
      among Title, Description and ReportedBy names the error. */
  function CreateGuard(issue: Issue): (r: Option<ServiceError>)
    ensures r.None? <==> !IsBlank(issue.title) && !IsBlank(issue.description) && !IsBlank(issue.reportedBy)
    ensures r == Some(ArgumentError("Title is required")) <==> IsBlank(issue.title)
    ensures r == Some(ArgumentError("Description is required")) <==>
              !IsBlank(issue.title) && IsBlank(issue.description)
    ensures r == Some(ArgumentError("ReportedBy is required")) <==>
              !IsBlank(issue.title) && !IsBlank(issue.description) && IsBlank(issue.reportedBy)
  {
    if IsBlank(issue.title) then Some(ArgumentError("Title is required"))
    else if IsBlank(issue.description) then Some(ArgumentError("Description is required"))
    else if IsBlank(issue.reportedBy) then Some(ArgumentError("ReportedBy is required"))
    else None
  }

  /** The check of UpdateIssueAsync and DeleteIssueAsync. */
  function IdGuard(id: int): (r: Option<ServiceError>)
    ensures r.None? <==> id > 0
    ensures r.Some? ==> r.value == ArgumentError("Invalid issue ID")
  {
    if id <= 0 then Some(ArgumentError("Invalid issue ID")) else None
  }

  /** A freshly constructed Issue is open, of medium severity, unresolved,
      refused by create (its Title is empty) and refused by update (its Id
      is 0). */
  lemma NewIssueIsRefused(now: Ticks)
    ensures var x := NewIssue(now);
            && x.id == 0 && x.status == "Open" && IsOpenOrInProgress(x) && x.severity == "Medium"
            && x.resolvedDate.None? && x.resolvedBy.None? && x.resolutionNotes.None?
            && CreateGuard(x) == Some(ArgumentError("Title is required"))
            && IdGuard(x.id).Some?
  {
  }

  class IssueService {
    const repository: IssueRepository

    constructor (repository: IssueRepository)
      ensures this.repository == repository
    {
      this.repository := repository;
    }

    /** CreateIssueAsync: refuses a blank Title, Description or ReportedBy
        without touching the store; otherwise creates through the
        repository and passes on its id or its failure. The Id is not
        checked: a caller-set Id reaches the repository as it is. */
    method CreateIssue(issue: Issue, now: Ticks) returns (r: Result<int, ServiceError>)
      requires repository.Valid()
      modifies repository
      ensures repository.Valid()
      ensures CreateGuard(issue).Some? ==> r == Failure(CreateGuard(issue).value) && unchanged(repository)
      ensures CreateGuard(issue).None? && issue.id == 0 ==>
                r == Success(old(repository.nextId))
      ensures CreateGuard(issue).None? && issue.id != 0 ==>
                r == (if FindById(old(repository.issues), issue.id).Some? then Failure(SaveFailed(DuplicateKey(issue.id)))
                      else Success(issue.id))
      ensures r.Success? ==> repository.issues == old(repository.issues) + [issue.(id := r.value, reportedDate := now)]
      ensures r.Success? ==> repository.nextId == if issue.id == 0 then old(repository.nextId) + 1
                                                 else if issue.id < old(repository.nextId) then old(repository.nextId)
                                                 else issue.id + 1
      ensures r.Failure? ==> repository.issues == old(repository.issues) && repository.nextId == old(repository.nextId)
    {
      var guard := CreateGuard(issue);
      if guard.Some? {
        return Failure(guard.value);
      }
      var created := repository.CreateIssue(issue, now);
      match created {
        case Success(id) => r := Success(id);
        case Failure(e) => r := Failure(SaveFailed(e));
      }
    }

    /** UpdateIssueAsync: refuses Id <= 0 without touching the store, and
        checks nothing else; otherwise returns the repository's answer. */
    method UpdateIssue(issue: Issue) returns (r: Result<bool, ServiceError>)
      requires repository.Valid()
      modifies repository
      ensures repository.Valid()
      ensures issue.id <= 0 ==> r == Failure(ArgumentError("Invalid issue ID")) && unchanged(repository)
      ensures issue.id > 0 ==>
                && r == Success(FindById(old(repository.issues), issue.id).Some?)
                && repository.issues == (if r.value then ReplaceById(old(repository.issues), issue)
                                         else old(repository.issues))
                && repository.nextId == old(repository.nextId)
    {
      var guard := IdGuard(issue.id);
      if guard.Some? {
        return Failure(guard.value);
      }
      var ok := repository.UpdateIssue(issue);
      r := Success(ok);
    }

    /** DeleteIssueAsync: refuses id <= 0 without touching the store;
        otherwise returns whether the repository removed an issue. */
    method DeleteIssue(id: int) returns (r: Result<bool, ServiceError>)
      requires repository.Valid()
      modifies repository
      ensures repository.Valid()
      ensures id <= 0 ==> r == Failure(ArgumentError("Invalid issue ID")) && unchanged(repository)
      ensures id > 0 ==>
                && r == Success(FindById(old(repository.issues), id).Some?)
                && repository.issues == RemoveById(old(repository.issues), id)
                && repository.nextId == old(repository.nextId)
    {
      var guard := IdGuard(id);
      if guard.Some? {
        return Failure(guard.value);
      }
      var ok := repository.DeleteIssue(id);
      r := Success(ok);
    }

    // The read operations forward their arguments to the repository and
    // return its answer unchanged.

    function GetOpenIssues(): seq<Issue>
      reads repository
    {
      IssueQueries.GetOpenIssues(repository.issues)
    }

    function GetIssuesBySeverity(severity: string): seq<Issue>
      reads repository
    {
      IssueQueries.GetIssuesBySeverity(repository.issues, severity)
    }

    function GetIssueById(id: int): Option<Issue>
      reads repository
    {
      FindById(repository.issues, id)
    }

    function GetIssues(status: Option<string>, severity: Option<string>,
                       sortBy: Option<string>, sortDescending: bool): seq<Issue>
      reads repository
    {
      IssueQueries.GetIssues(repository.issues, status, severity, sortBy, sortDescending)
    }

    function GetIssueStatistics(monthStart: Ticks): IssueStatistics
      reads repository
    {
      Statistics.GetIssueStatistics(repository.issues, monthStart)
    }
  }
}
