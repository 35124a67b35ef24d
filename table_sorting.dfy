/** The sort rule of the dashboard's sortable table headers
    (Datwise.WebForms/wwwroot/js/table-sorting.js): which sort string a
    click on a header produces and which header is marked as the current
    sort. The DOM and URL handling around it are not modelled. */
module TableSorting {
  import opened Wrappers
  import opened Text
  import opened IssueQueries

  /** `urlParams.get('sort') || ''`: a missing or empty parameter is ''. */
  function CurrentSort(sortParameter: Option<string>): (r: string)
    ensures sortParameter.None? ==> r == ""
    ensures sortParameter.Some? ==> r == sortParameter.value
  {
    sortParameter.GetOr("")
  }

  /** The click handler: nothing for a header without a field name;
      otherwise the field itself, or "-" + field when the table is
      currently sorted ascending by that field. */
  function NextSort(currentSort: string, field: Option<string>): (r: Option<string>)
  {
    if field.None? || field.value == "" then None
    else
      var f := field.value;
      if currentSort == f then Some("-" + f)
      else if currentSort == "-" + f then Some(f)
      else Some(f)
  }

  /** The sort indicator: a header is marked iff the current sort is its
      field, ascending or descending. */
  predicate IsMarked(currentSort: string, field: string) {
    currentSort == field || currentSort == "-" + field
  }

  /** A click on a named header always yields that field, ascending or
      descending, and descending exactly when the table was sorted
      ascending by it. */
  lemma NextSortShape(currentSort: string, f: string)
    requires f != ""
    ensures NextSort(currentSort, Some(f)) == Some(if currentSort == f then "-" + f else f)
    ensures NextSort(currentSort, None).None? && NextSort(currentSort, Some("")).None?
  {
  }

  /** Two clicks on the same header, starting from its ascending sort,
      come back to it; and starting from any other sort, two clicks give
      ascending then descending. */
  lemma ClickTwice(currentSort: string, f: string)
    requires f != ""
    ensures var first := NextSort(currentSort, Some(f)).value;
            var second := NextSort(first, Some(f)).value;
            (currentSort == f ==> first == "-" + f && second == f)
            && (currentSort != f ==> first == f && second == "-" + f)
  {
  }

  /** The two rules agree: the sort the toggle rule produces for a header
      is one the indicator rule marks that header for. */
  lemma ClickedHeaderIsMarked(currentSort: string, f: string)
    requires f != ""
    ensures IsMarked(NextSort(currentSort, Some(f)).value, f)
  {
  }

  /** Fed to ApplySorting, the sort a click produces selects the header's
      field, descending exactly when the table was sorted ascending by it
      (for field names without a leading '-'). */
  lemma ClickThenApplySorting(currentSort: string, f: string)
    requires f != "" && !StartsWith(f, '-')
    ensures ApplySorting(NextSort(currentSort, Some(f)).value, false) == ApplySorting(f, currentSort == f)
  {
    if currentSort == f {
      ApplySortingLeadingDash(f, false);
      assert TrimStartChar(f, '-') == f;
    } else {
      assert !StartsWith(f, '-');
    }
  }
}
