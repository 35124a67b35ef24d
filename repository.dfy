/** The write side of IssueRepository (Datwise.Data/IssueRepository.cs):
    the store is a sequence of issues and a counter standing for the
    database's id generator. */
module Repository {
  import opened Wrappers
  import opened Issues
  import opened IssueQueries

  predicate IdsDistinct(s: seq<Issue>) {
    forall i, j :: 0 <= i < j < |s| ==> s[i].id != s[j].id
  }

  /** The store invariant: ids are non-zero, distinct, and below the next
      id the key generator hands out, which is positive. */
  predicate WellFormedStore(s: seq<Issue>, nextId: int) {
    && nextId > 0
    && (forall i :: 0 <= i < |s| ==> s[i].id != 0 && s[i].id < nextId)
    && IdsDistinct(s)
  }

  /** The failure SaveChangesAsync raises when an explicit key is taken. */
  datatype CreateError = DuplicateKey(id: int)

  /** The store without the issues carrying the given id, in store order. */
  function RemoveById(s: seq<Issue>, id: int): seq<Issue> {
    if s == [] then []
    else (if s[0].id == id then [] else [s[0]]) + RemoveById(s[1..], id)
  }

  /** Removal drops every copy of the issues with that id and keeps every
      copy of the others. */
  lemma {:induction false} RemoveByIdCounts(s: seq<Issue>, id: int)
    ensures forall x :: multiset(RemoveById(s, id))[x] == if x.id == id then 0 else multiset(s)[x]
  {
    if s != [] {
      RemoveByIdCounts(s[1..], id);
      assert s == [s[0]] + s[1..];
    }
  }

  /** Two stores whose ids agree position by position find every id at the
      same position. */
  lemma {:induction false} SameIdsSameIndex(a: seq<Issue>, b: seq<Issue>)
    requires |a| == |b| && forall i :: 0 <= i < |a| ==> a[i].id == b[i].id
    ensures forall id :: IndexOfId(a, id) == IndexOfId(b, id)
  {
    if a != [] {
      SameIdsSameIndex(a[1..], b[1..]);
    }
  }

  /** The store with every issue carrying issue.id replaced by issue: a
      lookup of issue.id finds issue when the id was stored, and every other
      lookup finds what it found before. */
  function ReplaceById(s: seq<Issue>, issue: Issue): (r: seq<Issue>)
    ensures |r| == |s|
    ensures forall id :: FindById(r, id) ==
              if id == issue.id && FindById(s, id).Some? then Some(issue) else FindById(s, id)
  {
    var r := seq(|s|, i requires 0 <= i < |s| => if s[i].id == issue.id then issue else s[i]);
    SameIdsSameIndex(r, s);
    r
  }

  /** Cutting out the issue at i removes its id from a store with distinct
      ids. */
  lemma {:induction false} RemoveAtIsRemoveById(s: seq<Issue>, i: nat)
    requires IdsDistinct(s) && i < |s|
    ensures s[..i] + s[i + 1..] == RemoveById(s, s[i].id)
  {
    var t := s[1..];
    assert IdsDistinct(t) by {
      forall a, b | 0 <= a < b < |t| ensures t[a].id != t[b].id {
        assert t[a] == s[a + 1] && t[b] == s[b + 1];
      }
    }
    if i == 0 {
      forall k | 0 <= k < |t| ensures t[k].id != s[0].id {
        assert t[k] == s[k + 1];
      }
      RemoveAbsent(t, s[0].id);
    } else {
      RemoveAtIsRemoveById(t, i - 1);
      assert t[i - 1] == s[i];
      assert RemoveById(s, s[i].id) == [s[0]] + RemoveById(t, s[i].id);
      assert t[..i - 1] == s[1..i];
      assert t[i..] == s[i + 1..];
      assert s[..i] + s[i + 1..] == [s[0]] + (s[1..i] + s[i + 1..]);
    }
  }

  /** Removing an id that is not in the store changes nothing. */
  lemma {:induction false} RemoveAbsent(s: seq<Issue>, id: int)
    requires forall k :: 0 <= k < |s| ==> s[k].id != id
    ensures RemoveById(s, id) == s
  {
    if s != [] {
      RemoveAbsent(s[1..], id);
      assert s == [s[0]] + s[1..];
    }
  }

  /** Overwriting the issue at i with a record of the same id replaces that
      id in a store with distinct ids. */
  lemma ReplaceAtIsReplaceById(s: seq<Issue>, i: nat, issue: Issue)
    requires IdsDistinct(s) && i < |s| && s[i].id == issue.id
    ensures s[i := issue] == ReplaceById(s, issue)
  {
  }

  /** Cutting one issue out keeps the store well formed. */
  lemma CutKeepsWellFormed(s: seq<Issue>, i: nat, nextId: int)
    requires WellFormedStore(s, nextId) && i < |s|
    ensures WellFormedStore(s[..i] + s[i + 1..], nextId)
  {
    var r := s[..i] + s[i + 1..];
    assert forall k :: 0 <= k < |r| ==> r[k] == if k < i then s[k] else s[k + 1];
  }

  /** Cutting out the issue at i removes one copy of it and nothing else. */
  lemma CutCounts(s: seq<Issue>, i: nat)
    requires i < |s|
    ensures multiset(s[..i] + s[i + 1..]) + multiset{s[i]} == multiset(s)
  {
    assert s == s[..i] + [s[i]] + s[i + 1..];
  }

  /** Deleting an id twice: after the first removal the id is gone, so a
      second delete finds nothing. */
  lemma DeleteTwiceFindsNothing(s: seq<Issue>, id: int)
    ensures FindById(RemoveById(s, id), id).None?
    ensures RemoveById(RemoveById(s, id), id) == RemoveById(s, id)
  {
    var r := RemoveById(s, id);
    RemoveByIdCounts(s, id);
    forall k | 0 <= k < |r| ensures r[k].id != id {
      assert multiset(r)[r[k]] > 0;
    }
    RemoveAbsent(r, id);
  }

  class IssueRepository {
    var issues: seq<Issue>
    var nextId: int

    ghost predicate Valid()
      reads this
    {
      WellFormedStore(issues, nextId)
    }

    constructor ()
      ensures Valid() && issues == [] && nextId == 1
    {
      issues := [];
      nextId := 1;
    }

    /** CreateIssueAsync: stamps ReportedDate with now and stores the issue.
        An Id of 0 is unset: the key generator supplies an id above every
        stored one. A non-zero Id is kept as given, and the save fails,
        storing nothing, when an issue already has it. The stored id is
        returned. */
    method CreateIssue(issue: Issue, now: Ticks) returns (r: Result<int, CreateError>)
      requires Valid()
      modifies this
      ensures Valid()
      ensures issue.id == 0 ==> r == Success(old(nextId)) && nextId == old(nextId) + 1
      ensures issue.id != 0 ==>
                r == (if FindById(old(issues), issue.id).Some? then Failure(DuplicateKey(issue.id))
                      else Success(issue.id))
      ensures issue.id != 0 && r.Success? ==> nextId == if issue.id < old(nextId) then old(nextId) else issue.id + 1
      ensures r.Success? ==> issues == old(issues) + [issue.(id := r.value, reportedDate := now)]
      ensures r.Success? ==> FindById(issues, r.value) == Some(issue.(id := r.value, reportedDate := now))
      ensures r.Failure? ==> issues == old(issues) && nextId == old(nextId)
    {
      var id := issue.id;
      if id == 0 {
        id := nextId;
        nextId := nextId + 1;
      } else if IndexOfId(issues, id).Some? {
        return Failure(DuplicateKey(id));
      } else if id >= nextId {
        nextId := id + 1;
      }
      var stored := issue.(id := id, reportedDate := now);
      issues := issues + [stored];
      r := Success(id);
      assert issues[|issues| - 1] == stored;
    }

    /** UpdateIssueAsync: replaces the whole stored record with the same id,
        ReportedDate included; false, with nothing changed, when no issue
        has that id. */
    method UpdateIssue(issue: Issue) returns (ok: bool)
      requires Valid()
      modifies this
      ensures Valid() && nextId == old(nextId)
      ensures ok <==> FindById(old(issues), issue.id).Some?
      ensures issues == if ok then ReplaceById(old(issues), issue) else old(issues)
      ensures ok ==> FindById(issues, issue.id) == Some(issue)
    {
      match IndexOfId(issues, issue.id) {
        case None =>
          ok := false;
        case Some(i) =>
          ReplaceAtIsReplaceById(issues, i, issue);
          issues := issues[i := issue];
          ok := true;
          assert issues[i] == issue;
      }
    }

    /** DeleteIssueAsync: removes the issue with that id and reports whether
        there was one. */
    method DeleteIssue(id: int) returns (ok: bool)
      requires Valid()
      modifies this
      ensures Valid() && nextId == old(nextId)
      ensures ok <==> FindById(old(issues), id).Some?
      ensures issues == RemoveById(old(issues), id)
      ensures ok ==> multiset(issues) + multiset{FindById(old(issues), id).value} == multiset(old(issues))
      ensures FindById(issues, id).None?
    {
      DeleteTwiceFindsNothing(issues, id);
      match IndexOfId(issues, id) {
        case None =>
          RemoveAbsent(issues, id);
          ok := false;
        case Some(i) =>
          RemoveAtIsRemoveById(issues, i);
          CutKeepsWellFormed(issues, i, nextId);
          CutCounts(issues, i);
          issues := issues[..i] + issues[i + 1..];
          ok := true;
      }
    }
  }
}
