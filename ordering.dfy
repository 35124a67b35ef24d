/** The orderings the issue repository hands to LINQ's OrderBy,
    OrderByDescending and ThenByDescending, and a sort that applies them.
    The sort is stable, as LINQ to Objects is: ties keep the order of the
    input. A database provider that translates the ordering to SQL ORDER BY
    may return ties in any order; the stable order is one of the orders it
    may return. */
module Ordering {
  import opened Issues
  import opened Text

  datatype SortField =
    | ById | ByTitle | BySeverity | ByStatus | ByDepartment
    | ByLocation | ByReportedBy | ByReportedDate

  datatype SortOrder =
    /** OrderByDescending(severity rank).ThenByDescending(ReportedDate). */
    | SeverityRankThenNewest
    /** OrderBy(field) or OrderByDescending(field). */
    | ByField(field: SortField, descending: bool)

  /** The key of the default order: Critical 0, High 1, Medium 2, anything
      else 3. */
  function SeverityRank(severity: string): (r: nat)
    ensures r <= 3
    ensures severity == "Critical" ==> r == 0
    ensures severity == "High" ==> r == 1
    ensures severity == "Medium" ==> r == 2
    ensures r == 3 <==> severity != "Critical" && severity != "High" && severity != "Medium"
  {
    if severity == "Critical" then 0
    else if severity == "High" then 1
    else if severity == "Medium" then 2
    else 3
  }

  /** Ascending comparison on one field: numeric for Id, chronological for
      ReportedDate, code-point order for the strings. */
  predicate FieldLe(f: SortField, a: Issue, b: Issue) {
    match f
    case ById => a.id <= b.id
    case ByTitle => CodePointLe(a.title, b.title)
    case BySeverity => CodePointLe(a.severity, b.severity)
    case ByStatus => CodePointLe(a.status, b.status)
    case ByDepartment => CodePointLe(a.department, b.department)
    case ByLocation => CodePointLe(a.location, b.location)
    case ByReportedBy => CodePointLe(a.reportedBy, b.reportedBy)
    case ByReportedDate => a.reportedDate <= b.reportedDate
  }

  /** a may stand before b in a list ordered by o. */
  predicate Precedes(o: SortOrder, a: Issue, b: Issue) {
    match o
    case SeverityRankThenNewest =>
      var ra, rb := SeverityRank(a.severity), SeverityRank(b.severity);
      ra > rb || (ra == rb && a.reportedDate >= b.reportedDate)
    case ByField(f, descending) =>
      if descending then FieldLe(f, b, a) else FieldLe(f, a, b)
  }

  /** a and b have equal keys under o. */
  predicate Tied(o: SortOrder, a: Issue, b: Issue) {
    Precedes(o, a, b) && Precedes(o, b, a)
  }

  predicate SortedBy(o: SortOrder, s: seq<Issue>) {
    forall i, j :: 0 <= i < j < |s| ==> Precedes(o, s[i], s[j])
  }

  lemma FieldLeTotal(f: SortField, a: Issue, b: Issue)
    ensures FieldLe(f, a, b) || FieldLe(f, b, a)
  {
    match f
    case ByTitle => CodePointLeTotal(a.title, b.title);
    case BySeverity => CodePointLeTotal(a.severity, b.severity);
    case ByStatus => CodePointLeTotal(a.status, b.status);
    case ByDepartment => CodePointLeTotal(a.department, b.department);
    case ByLocation => CodePointLeTotal(a.location, b.location);
    case ByReportedBy => CodePointLeTotal(a.reportedBy, b.reportedBy);
    case _ =>
  }

  lemma FieldLeTransitive(f: SortField, a: Issue, b: Issue, c: Issue)
    requires FieldLe(f, a, b) && FieldLe(f, b, c)
    ensures FieldLe(f, a, c)
  {
    match f
    case ByTitle => CodePointLeTransitive(a.title, b.title, c.title);
    case BySeverity => CodePointLeTransitive(a.severity, b.severity, c.severity);
    case ByStatus => CodePointLeTransitive(a.status, b.status, c.status);
    case ByDepartment => CodePointLeTransitive(a.department, b.department, c.department);
    case ByLocation => CodePointLeTransitive(a.location, b.location, c.location);
    case ByReportedBy => CodePointLeTransitive(a.reportedBy, b.reportedBy, c.reportedBy);
    case _ =>
  }

  /** Every order is total ... */
  lemma PrecedesTotal(o: SortOrder, a: Issue, b: Issue)
    ensures Precedes(o, a, b) || Precedes(o, b, a)
  {
    if o.ByField? {
      FieldLeTotal(o.field, a, b);
    }
  }

  /** ... and transitive. */
  lemma PrecedesTransitive(o: SortOrder, a: Issue, b: Issue, c: Issue)
    requires Precedes(o, a, b) && Precedes(o, b, c)
    ensures Precedes(o, a, c)
  {
    if o.ByField? {
      if o.descending {
        FieldLeTransitive(o.field, c, b, a);
      } else {
        FieldLeTransitive(o.field, a, b, c);
      }
    }
  }

  /** By code point, "Critical" < "High" < "Low". */
  lemma SeverityNamesInCodePointOrder()
    ensures !CodePointLe("High", "Critical") && !CodePointLe("Low", "High")
  {
    assert "High"[0] == 'H' && "Critical"[0] == 'C' && "Low"[0] == 'L';
  }

  /** In a sequence sorted ascending by the Severity key, High never
      stands before Critical, nor Low before High. */
  lemma AscendingSeverityIsAlphabetical(r: seq<Issue>, i: nat, j: nat)
    requires SortedBy(ByField(BySeverity, false), r) && i < j < |r|
    ensures r[i].severity == "High" ==> r[j].severity != "Critical"
    ensures r[i].severity == "Low" ==> r[j].severity != "High"
  {
    assert CodePointLe(r[i].severity, r[j].severity);
    SeverityNamesInCodePointOrder();
  }

  /** Inserts x before the first element it may precede, so x stays ahead of
      the elements it ties with. */
  function Insert(o: SortOrder, x: Issue, t: seq<Issue>): seq<Issue> {
    if t == [] then [x]
    else if Precedes(o, x, t[0]) then [x] + t
    else [t[0]] + Insert(o, x, t[1..])
  }

  /** Insertion adds x and keeps every element of t. */
  lemma {:induction false} InsertPermutes(o: SortOrder, x: Issue, t: seq<Issue>)
    ensures multiset(Insert(o, x, t)) == multiset(t) + multiset{x}
  {
    if t != [] && !Precedes(o, x, t[0]) {
      InsertPermutes(o, x, t[1..]);
      assert t == [t[0]] + t[1..];
    }
  }

  /** An element that may precede x and every element of t may precede
      every element of the insertion. */
  lemma {:induction false} InsertLowerBound(o: SortOrder, a: Issue, x: Issue, t: seq<Issue>)
    requires Precedes(o, a, x)
    requires forall k :: 0 <= k < |t| ==> Precedes(o, a, t[k])
    ensures forall j :: 0 <= j < |Insert(o, x, t)| ==> Precedes(o, a, Insert(o, x, t)[j])
  {
    if t != [] && !Precedes(o, x, t[0]) {
      InsertLowerBound(o, a, x, t[1..]);
      assert Insert(o, x, t) == [t[0]] + Insert(o, x, t[1..]);
    }
  }

  lemma {:induction false} InsertSorted(o: SortOrder, x: Issue, t: seq<Issue>)
    requires SortedBy(o, t)
    ensures SortedBy(o, Insert(o, x, t))
  {
    var r := Insert(o, x, t);
    if t == [] {
    } else if Precedes(o, x, t[0]) {
      forall j | 1 <= j < |r| ensures Precedes(o, r[0], r[j]) {
        if j > 1 { PrecedesTransitive(o, x, t[0], t[j - 1]); }
      }
    } else {
      PrecedesTotal(o, x, t[0]);
      var rest := Insert(o, x, t[1..]);
      InsertSorted(o, x, t[1..]);
      InsertLowerBound(o, t[0], x, t[1..]);
      assert r == [t[0]] + rest;
    }
  }

  /** The sort LINQ performs: stable insertion sort. The result is a
      permutation of the input ordered by o. */
  function SortBy(o: SortOrder, s: seq<Issue>): (r: seq<Issue>)
    ensures multiset(r) == multiset(s)
    ensures SortedBy(o, r)
  {
    if s == [] then []
    else
      var rest := SortBy(o, s[1..]);
      InsertSorted(o, s[0], rest);
      InsertPermutes(o, s[0], rest);
      assert s == [s[0]] + s[1..];
      Insert(o, s[0], rest)
  }

  /** The elements of s whose key ties with that of k, in their order in s. */
  function Band(o: SortOrder, k: Issue, s: seq<Issue>): seq<Issue> {
    if s == [] then []
    else (if Tied(o, s[0], k) then [s[0]] else []) + Band(o, k, s[1..])
  }

  lemma BandCons(o: SortOrder, k: Issue, a: Issue, s: seq<Issue>)
    ensures Band(o, k, [a] + s) == (if Tied(o, a, k) then [a] else []) + Band(o, k, s)
  {
    assert ([a] + s)[1..] == s;
  }

  lemma {:induction false} BandOfInsert(o: SortOrder, k: Issue, x: Issue, t: seq<Issue>)
    ensures Band(o, k, Insert(o, x, t)) == (if Tied(o, x, k) then [x] else []) + Band(o, k, t)
  {
    if t == [] {
      BandCons(o, k, x, t);
    } else if Precedes(o, x, t[0]) {
      BandCons(o, k, x, t);
    } else {
      var rest := Insert(o, x, t[1..]);
      BandCons(o, k, t[0], rest);
      BandCons(o, k, t[0], t[1..]);
      assert t == [t[0]] + t[1..];
      BandOfInsert(o, k, x, t[1..]);
      if Tied(o, x, k) && Tied(o, t[0], k) {
        PrecedesTransitive(o, x, k, t[0]);
        assert false;
      }
    }
  }

  /** Stability: the sort leaves each group of tied elements in its input
      order. */
  lemma {:induction false} SortByStable(o: SortOrder, k: Issue, s: seq<Issue>)
    ensures Band(o, k, SortBy(o, s)) == Band(o, k, s)
  {
    if s != [] {
      BandOfInsert(o, k, s[0], SortBy(o, s[1..]));
      SortByStable(o, k, s[1..]);
    }
  }
}
